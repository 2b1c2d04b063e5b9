/** The orchestrator's loop as it is written: an ordered dict of pending tasks, a
    dispatch pass, and one queue read per iteration. Each of its methods is a run of
    the scheduler's state machine. */
module Orchestrator {
  import opened Runs
  import opened SchedulerModel
  import opened Scheduler

  /** The tasks of a dispatch pass, in the order in which they are dispatched. */
  function ReadyIds(order: seq<TaskId>, pending: map<TaskId, Task>, completed: map<TaskId, string>): seq<TaskId> {
    if order == [] then []
    else
      var last := order[|order| - 1];
      ReadyIds(order[..|order| - 1], pending, completed)
      + if IsReady(pending, completed, last) then [last] else []
  }

  function Announcements(ready: seq<TaskId>): (r: seq<Event>)
    ensures |r| == |ready|
  {
    seq(|ready|, i requires 0 <= i < |ready| => Running(ready[i]))
  }

  predicate Distinct(ids: seq<TaskId>) {
    forall i, j | 0 <= i < j < |ids| :: ids[i] != ids[j]
  }

  lemma {:induction false} ReadyMember(order: seq<TaskId>, pending: map<TaskId, Task>,
                                       completed: map<TaskId, string>, t: TaskId)
    ensures t in ReadyIds(order, pending, completed) <==> t in order && IsReady(pending, completed, t)
  {
    if order != [] {
      ReadyMember(order[..|order| - 1], pending, completed, t);
    }
  }

  lemma {:induction false} ReadyDistinct(order: seq<TaskId>, pending: map<TaskId, Task>,
                                         completed: map<TaskId, string>)
    requires Distinct(order)
    ensures Distinct(ReadyIds(order, pending, completed))
  {
    if order != [] {
      var front := order[..|order| - 1];
      ReadyDistinct(front, pending, completed);
      ReadyMember(front, pending, completed, order[|order| - 1]);
    }
  }

  lemma {:induction false} DropFirst(ready: seq<TaskId>, k: nat)
    requires Distinct(ready) && k < |ready|
    ensures forall t :: t in ready[k + 1..] <==> t in ready[k..] && t != ready[k]
    ensures Announcements(ready[..k + 1]) == Announcements(ready[..k]) + [Running(ready[k])]
    ensures k + 1 == |ready| ==> ready[..k + 1] == ready && ready[k + 1..] == []
  {
    assert ready[k..] == [ready[k]] + ready[k + 1..];
  }

  /** The tasks that are ready are those in `ids`. */
  ghost predicate ReadyExactly(pending: map<TaskId, Task>, completed: map<TaskId, string>, ids: seq<TaskId>) {
    forall t :: IsReady(pending, completed, t) <==> t in ids
  }

  lemma ReadyAtFirst(order: seq<TaskId>, pending: map<TaskId, Task>, completed: map<TaskId, string>)
    requires forall t | t in pending :: t in order
    ensures ReadyExactly(pending, completed, ReadyIds(order, pending, completed))
  {
    forall t ensures IsReady(pending, completed, t) <==> t in ReadyIds(order, pending, completed) {
      ReadyMember(order, pending, completed, t);
    }
  }

  lemma OneLessReady(pending: map<TaskId, Task>, completed: map<TaskId, string>, ready: seq<TaskId>, k: nat)
    requires Distinct(ready) && k < |ready| && ReadyExactly(pending, completed, ready[k..])
    ensures ReadyExactly(pending - {ready[k]}, completed, ready[k + 1..])
  {
    DropFirst(ready, k);
    forall t ensures IsReady(pending - {ready[k]}, completed, t) <==> IsReady(pending, completed, t) && t != ready[k] {
    }
  }

  lemma IsReadyFirst(pending: map<TaskId, Task>, completed: map<TaskId, string>, ids: seq<TaskId>)
    requires ReadyExactly(pending, completed, ids)
    ensures ids != [] ==> IsReady(pending, completed, ids[0])
    ensures ids == [] ==> forall t :: !IsReady(pending, completed, t)
  {
  }

  // ---------------------------------------------------------------------------
  // The order of announcements
  // ---------------------------------------------------------------------------

  /** A task stands before another in the plan: its id occurs first. */
  ghost predicate Precedes(plan: seq<Task>, t: TaskId, u: TaskId) {
    exists i | 0 <= i < |plan| :: plan[i].id == t && forall j | 0 <= j <= i :: plan[j].id != u
  }

  ghost predicate InPlanOrder(plan: seq<Task>, ids: seq<TaskId>) {
    forall i, j | 0 <= i < j < |ids| :: Precedes(plan, ids[i], ids[j])
  }

  /** Of two tasks announced one right after the other, the first stands before the second. */
  ghost predicate AnnouncedInOrder(plan: seq<Task>, out: seq<Event>) {
    forall i, j | 0 <= i && j == i + 1 && j < |out| && out[i].Running? && out[j].Running? ::
      Precedes(plan, out[i].agent, out[j].agent)
  }

  lemma {:induction false} ReadyInPlanOrder(plan: seq<Task>, order: seq<TaskId>, pending: map<TaskId, Task>,
                                            completed: map<TaskId, string>)
    requires InPlanOrder(plan, order)
    ensures InPlanOrder(plan, ReadyIds(order, pending, completed))
  {
    hide Precedes;
    if order != [] {
      var front, last := order[..|order| - 1], order[|order| - 1];
      ReadyInPlanOrder(plan, front, pending, completed);
      var ready := ReadyIds(front, pending, completed);
      forall i | 0 <= i < |ready| ensures Precedes(plan, ready[i], last) {
        ReadyMember(front, pending, completed, ready[i]);
        var k :| 0 <= k < |front| && front[k] == ready[i];
        assert order[k] == ready[i];
      }
    }
  }

  lemma AnnouncedOneMore(plan: seq<Task>, out: seq<Event>, e: Event)
    requires AnnouncedInOrder(plan, out)
    requires e.Running? && out != [] && out[|out| - 1].Running? ==> Precedes(plan, out[|out| - 1].agent, e.agent)
    ensures AnnouncedInOrder(plan, out + [e])
  {
    hide Precedes;
  }

  /** The last event is no announcement. */
  predicate EndsUnannounced(out: seq<Event>) {
    out != [] ==> !out[|out| - 1].Running?
  }

  lemma LastAnnounced(out: seq<Event>, ready: seq<TaskId>, k: nat)
    requires k <= |ready|
    ensures var longer := out + Announcements(ready[..k]);
      if k == 0 then longer == out else longer != [] && longer[|longer| - 1] == Running(ready[k - 1])
  {
  }

  lemma NextAnnounced(plan: seq<Task>, out: seq<Event>, ready: seq<TaskId>, k: nat)
    requires k < |ready| && InPlanOrder(plan, ready)
    ensures var longer := out + Announcements(ready[..k]);
      EndsUnannounced(out) && AnnouncedInOrder(plan, longer) ==> AnnouncedInOrder(plan, longer + [Running(ready[k])])
  {
    hide Precedes, AnnouncedInOrder;
    LastAnnounced(out, ready, k);
    var longer := out + Announcements(ready[..k]);
    assert k > 0 ==> Precedes(plan, ready[k - 1], ready[k]);
    if EndsUnannounced(out) && AnnouncedInOrder(plan, longer) {
      AnnouncedOneMore(plan, longer, Running(ready[k]));
    }
  }

  lemma NothingOrdered(plan: seq<Task>)
    ensures InPlanOrder(plan, []) && Distinct([])
  {
  }

  lemma OneMoreDistinct(ids: seq<TaskId>, t: TaskId)
    requires Distinct(ids) && t !in ids
    ensures Distinct(ids + [t])
  {
  }

  lemma OneMoreInPlan(plan: seq<Task>, n: nat, order: seq<TaskId>)
    requires n < |plan| && InPlanOrder(plan, order)
    requires forall t :: t in order <==> exists i | 0 <= i < n :: plan[i].id == t
    requires plan[n].id !in order
    ensures InPlanOrder(plan, order + [plan[n].id])
  {
    forall k | 0 <= k < |order| ensures Precedes(plan, order[k], plan[n].id) {
      assert order[k] in order;
      var i :| 0 <= i < n && plan[i].id == order[k];
    }
  }

  // ---------------------------------------------------------------------------
  // What the waits let the sub-agents do
  // ---------------------------------------------------------------------------

  /** The events that were read off the queue: all that is yielded but the announcements. */
  function Reads(out: seq<Event>): nat {
    if out == [] then 0
    else Reads(out[..|out| - 1]) + if out[|out| - 1].Running? then 0 else 1
  }

  /** How many events had been read when this task was announced. */
  function ReadsBefore(out: seq<Event>, t: TaskId): nat {
    if out == [] then 0
    else
      var front := out[..|out| - 1];
      if out[|out| - 1] == Running(t) then Reads(front) else ReadsBefore(front, t)
  }

  /** What one step of the world makes of a sub-agent. */
  function Acted(a: Agent, t: TaskId, step: Step): Agent {
    match step
    case EmitChunk(u, text) =>
      if u == t && a.status.Live?
      then Agent(a.snapshot, Live(a.status.chunks + text), a.emitted + [Output(t, text)]) else a
    case EmitOther(u, body) =>
      if u == t && a.status.Live? then Agent(a.snapshot, a.status, a.emitted + [Tagged(t, body)]) else a
    case Raise(u, error) =>
      if u == t && a.status.Live?
      then Agent(a.snapshot, Ending("[FAILED: " + error + "]"), a.emitted + [Failed(t, error)]) else a
    case Finish(u) =>
      if u != t then a
      else match a.status {
        case Live(chunks) => Agent(a.snapshot, Finished(chunks), a.emitted)
        case Ending(output) => Agent(a.snapshot, Finished(output), a.emitted)
        case Finished(_) => a
      }
    case _ => a
  }

  lemma SameKeys(agents: map<TaskId, Agent>, t: TaskId, a: Agent)
    requires t in agents
    ensures agents[t := a].Keys == agents.Keys
  {
  }

  predicate IsAgentStep(step: Step) {
    !step.Dispatch? && !step.Drain? && !step.TimeOut?
  }

  ghost function AfterAgentStep(s: State, step: Step): State {
    if IsAgentStep(step) && Enabled(s, step) then Do(s, step) else s
  }

  /** A step of a sub-agent is a step of the state machine, which does to each agent
      what the step does to it alone. */
  lemma StepActs(s: State, step: Step)
    ensures Reaches(Next, s, AfterAgentStep(s, step))
    ensures AfterAgentStep(s, step).agents.Keys == s.agents.Keys
    ensures forall t | t in s.agents :: AfterAgentStep(s, step).agents[t] == Acted(s.agents[t], t, step)
  {
    ReachesSelf(Next, s);
    if IsAgentStep(step) && Enabled(s, step) {
      assert Next(s, Do(s, step));
      ReachesStep(Next, s, s, Do(s, step));
    }
  }

  function ActedAll(a: Agent, t: TaskId, steps: seq<Step>): Agent {
    var n := |steps|;
    if n == 0 then a else Acted(ActedAll(a, t, steps[..n - 1]), t, steps[n - 1])
  }

  /** What the rounds from one number up to another make of a sub-agent, as far as there are
      any in the schedule. */
  function Grown(a: Agent, t: TaskId, schedule: seq<seq<Step>>, lo: nat, hi: nat): Agent
    decreases hi
  {
    if hi <= lo then a
    else if hi > |schedule| then Grown(a, t, schedule, lo, hi - 1)
    else ActedAll(Grown(a, t, schedule, lo, hi - 1), t, schedule[hi - 1])
  }

  /** Every sub-agent is what the rounds since its announcement have made of it. */
  ghost predicate AgentsActed(agents: map<TaskId, Agent>, out: seq<Event>, schedule: seq<seq<Step>>, rounds: nat) {
    forall t | t in agents ::
      agents[t] == Grown(Agent(agents[t].snapshot, Live(""), []), t, schedule, ReadsBefore(out, t), rounds)
  }

  /** Since an earlier time sub-agents have only been started, and announced. */
  ghost predicate DispatchedNow(agents: map<TaskId, Agent>, out: seq<Event>,
                                agents': map<TaskId, Agent>, out': seq<Event>)
  {
    forall t | t in agents' ::
      || (t in agents && agents'[t] == agents[t] && ReadsBefore(out', t) == ReadsBefore(out, t))
      || (agents'[t] == Agent(agents'[t].snapshot, Live(""), []) && ReadsBefore(out', t) == Reads(out))
  }

  lemma NoneDispatched(agents: map<TaskId, Agent>, out: seq<Event>)
    ensures DispatchedNow(agents, out, agents, out)
  {
  }

  lemma OneMoreDispatched(agents: map<TaskId, Agent>, out: seq<Event>, agents': map<TaskId, Agent>,
                          out': seq<Event>, t: TaskId, started: Agent)
    requires DispatchedNow(agents, out, agents', out') && Reads(out') == Reads(out)
    requires started == Agent(started.snapshot, Live(""), [])
    ensures Reads(out' + [Running(t)]) == Reads(out)
    ensures DispatchedNow(agents, out, agents'[t := started], out' + [Running(t)])
  {
    ReadsOneMore(out', Running(t));
  }

  lemma NothingRead(plan: seq<Task>, agents: map<TaskId, Agent>, out: seq<Event>, schedule: seq<seq<Step>>)
    requires agents == map[] && out == []
    ensures Reads(out) == 0 && AgentsActed(agents, out, schedule, 0)
    ensures AnnouncedInOrder(plan, out) && EndsUnannounced(out)
  {
  }

  lemma DispatchedHaveActed(agents: map<TaskId, Agent>, out: seq<Event>,
                            agents': map<TaskId, Agent>, out': seq<Event>, schedule: seq<seq<Step>>)
    requires AgentsActed(agents, out, schedule, Reads(out)) && DispatchedNow(agents, out, agents', out')
    ensures AgentsActed(agents', out', schedule, Reads(out))
  {
    forall t | t in agents' && ReadsBefore(out', t) == Reads(out)
      ensures Grown(Agent(agents'[t].snapshot, Live(""), []), t, schedule, Reads(out), Reads(out)) ==
        Agent(agents'[t].snapshot, Live(""), [])
    {
      GrownNothing(Agent(agents'[t].snapshot, Live(""), []), t, schedule, Reads(out), Reads(out));
    }
  }

  /** The sub-agents have taken these steps. */
  ghost predicate TookSteps(agents: map<TaskId, Agent>, agents': map<TaskId, Agent>, steps: seq<Step>) {
    agents'.Keys == agents.Keys && forall t | t in agents :: agents'[t] == ActedAll(agents[t], t, steps)
  }

  /** The steps of one more round of the schedule, or of none when it has no more. */
  lemma OneMoreRound(agents: map<TaskId, Agent>, agents': map<TaskId, Agent>, out: seq<Event>,
                     schedule: seq<seq<Step>>, rounds: nat)
    requires AgentsActed(agents, out, schedule, rounds)
    requires rounds == Reads(out)
    requires if rounds < |schedule| then TookSteps(agents, agents', schedule[rounds]) else agents' == agents
    ensures AgentsActed(agents', out, schedule, rounds + 1)
  {
    forall t | t in agents'
      ensures agents'[t] ==
        Grown(Agent(agents'[t].snapshot, Live(""), []), t, schedule, ReadsBefore(out, t), rounds + 1)
    {
      ReadsBeforeReads(out, t);
      if rounds < |schedule| {
        ActedKeepsSnapshot(agents[t], t, schedule[rounds]);
      }
    }
  }

  lemma {:induction false} ReadsBeforeReads(out: seq<Event>, t: TaskId)
    ensures ReadsBefore(out, t) <= Reads(out)
  {
    if out != [] {
      ReadsBeforeReads(out[..|out| - 1], t);
    }
  }

  /** No round since the task was announced lets its sub-agent finish. */
  predicate NeverLetFinish(schedule: seq<seq<Step>>, out: seq<Event>, t: TaskId) {
    forall k | ReadsBefore(out, t) <= k <= Reads(out) && k < |schedule| :: Finish(t) !in schedule[k]
  }

  lemma UnfinishedWasNotLet(agents: map<TaskId, Agent>, out: seq<Event>, schedule: seq<seq<Step>>, t: TaskId)
    requires AgentsActed(agents, out, schedule, Reads(out) + 1)
    requires t in agents && !agents[t].status.Finished?
    ensures NeverLetFinish(schedule, out, t)
  {
    forall k | ReadsBefore(out, t) <= k <= Reads(out) && k < |schedule| ensures Finish(t) !in schedule[k] {
      if Finish(t) in schedule[k] {
        GrownIsFinished(Agent(agents[t].snapshot, Live(""), []), t, schedule, ReadsBefore(out, t), Reads(out) + 1, k);
      }
    }
  }

  /** Every round lets every sub-agent finish. */
  predicate LetsAllFinish(plan: seq<Task>, schedule: seq<seq<Step>>) {
    forall k, i | 0 <= k < |schedule| && 0 <= i < |plan| :: Finish(plan[i].id) in schedule[k]
  }

  lemma {:induction false} GrownNothing(a: Agent, t: TaskId, schedule: seq<seq<Step>>, lo: nat, hi: nat)
    requires hi <= lo || |schedule| <= lo
    ensures Grown(a, t, schedule, lo, hi) == a
    decreases hi
  {
    if hi > lo {
      GrownNothing(a, t, schedule, lo, hi - 1);
    }
  }

  lemma ReadsOneMore(out: seq<Event>, e: Event)
    ensures Reads(out + [e]) == Reads(out) + if e.Running? then 0 else 1
    ensures forall t :: ReadsBefore(out + [e], t) == if e == Running(t) then Reads(out) else ReadsBefore(out, t)
  {
    assert (out + [e])[..|out|] == out;
  }

  lemma {:induction false} ActedKeepsSnapshot(a: Agent, t: TaskId, steps: seq<Step>)
    ensures ActedAll(a, t, steps).snapshot == a.snapshot
  {
    if |steps| > 0 {
      ActedKeepsSnapshot(a, t, steps[..|steps| - 1]);
    }
  }

  lemma {:induction false} FinishEnds(a: Agent, t: TaskId, steps: seq<Step>)
    ensures a.status.Finished? || Finish(t) in steps ==> ActedAll(a, t, steps).status.Finished?
  {
    var n := |steps|;
    if n > 0 {
      FinishEnds(a, t, steps[..n - 1]);
      assert steps == steps[..n - 1] + [steps[n - 1]];
    }
  }

  /** A sub-agent that some round lets finish has finished. */
  lemma {:induction false} GrownIsFinished(a: Agent, t: TaskId, schedule: seq<seq<Step>>, lo: nat, hi: nat, k: nat)
    requires lo <= k < hi && k < |schedule| && Finish(t) in schedule[k]
    ensures Grown(a, t, schedule, lo, hi).status.Finished?
    decreases hi
  {
    var before := Grown(a, t, schedule, lo, hi - 1);
    if k < hi - 1 {
      GrownIsFinished(a, t, schedule, lo, hi - 1, k);
    }
    if hi <= |schedule| {
      FinishEnds(before, t, schedule[hi - 1]);
    }
  }

  /** The fields are the loop's variables; `order` is the key order of the dict `pending`. */
  class Orchestration {
    const plan: seq<Task>
    var order: seq<TaskId>
    var pending: map<TaskId, Task>
    var running: set<TaskId>
    var agents: map<TaskId, Agent>
    var completed: map<TaskId, string>
    var done: nat
    var queue: seq<Event>
    var out: seq<Event>
    var aborted: bool

    ghost predicate Valid() reads this {
      && Distinct(order) && InPlanOrder(plan, order)
      && running == agents.Keys
      && forall t | t in pending :: t in order && t !in running
    }

    ghost function View(): State reads this {
      State(ById(plan), |plan|, pending, agents, completed, done, queue, out, aborted)
    }

    constructor (plan: seq<Task>)
      ensures Valid() && this.plan == plan && View() == Init(plan)
    {
      this.plan := plan;
      hide Precedes, InPlanOrder, Distinct;
      order, pending, running, agents, completed := [], map[], {}, map[], map[];
      done, queue, out, aborted := 0, [], [], false;
      new;
      NothingOrdered(plan);
      var i := 0;
      while i < |plan|
        invariant 0 <= i <= |plan| && Distinct(order) && InPlanOrder(plan, order) && pending == ById(plan[..i])
        invariant forall t :: t in pending <==> t in order
        invariant forall t :: t in order <==> exists k | 0 <= k < i :: plan[k].id == t
        invariant running == {} && agents == map[] && completed == map[]
        invariant done == 0 && queue == [] && out == [] && !aborted
      {
        if plan[i].id !in pending {
          OneMoreInPlan(plan, i, order);
          OneMoreDistinct(order, plan[i].id);
          order := order + [plan[i].id];
        }
        pending := pending[plan[i].id := plan[i]];
        assert plan[..i + 1][..i] == plan[..i];
        i := i + 1;
      }
      assert plan[..|plan|] == plan;
    }

    /** Dispatches one ready task: the body of the dispatch loop. */
    method DispatchOne(t: TaskId)
      requires Valid() && Looping(View()) && Ready(View(), t)
      modifies this`pending, this`running, this`agents, this`out
      ensures Valid() && Next(old(View()), View())
      ensures pending == old(pending) - {t}
      ensures out == old(out) + [Running(t)]
      ensures agents == old(agents)[t := Agent(completed, Live(""), [])]
    {
      running := running + {t};
      pending := pending - {t};
      out := out + [Running(t)];
      agents := agents[t := Agent(completed, Live(""), [])];
      assert Enabled(old(View()), Dispatch(t));
    }

    /** Dispatches every task whose dependencies have completed, in the order of the plan. */
    method DispatchReady()
      requires Valid() && Looping(View())
      modifies this`pending, this`running, this`agents, this`out
      ensures Valid() && Looping(View()) && Reaches(Next, old(View()), View())
      ensures forall t :: !Ready(View(), t)
      ensures out == old(out) + Announcements(ReadyIds(order, old(pending), completed))
      ensures EndsUnannounced(old(out)) && AnnouncedInOrder(plan, old(out)) ==> AnnouncedInOrder(plan, out)
      ensures Reads(out) == Reads(old(out)) && DispatchedNow(old(agents), old(out), agents, out)
    {
      hide Precedes, InPlanOrder, AnnouncedInOrder, EndsUnannounced, Reads, ReadsBefore, DispatchedNow, Next, IsReady;
      var ready := ReadyIds(order, pending, completed);
      NoneDispatched(old(agents), old(out));
      ReadyDistinct(order, pending, completed);
      ReadyInPlanOrder(plan, order, pending, completed);
      ReachesSelf(Next, View());
      ReadyAtFirst(order, pending, completed);
      var k := 0;
      while k < |ready|
        invariant 0 <= k <= |ready| && Valid() && Looping(View())
        invariant Reaches(Next, old(View()), View())
        invariant ReadyExactly(pending, completed, ready[k..])
        invariant out == old(out) + Announcements(ready[..k])
        invariant EndsUnannounced(old(out)) && AnnouncedInOrder(plan, old(out)) ==> AnnouncedInOrder(plan, out)
        invariant Reads(out) == Reads(old(out)) && DispatchedNow(old(agents), old(out), agents, out)
      {
        ghost var was, rest := View(), pending;
        IsReadyFirst(pending, completed, ready[k..]);
        NextAnnounced(plan, old(out), ready, k);
        OneMoreDispatched(old(agents), old(out), agents, out, ready[k], Agent(completed, Live(""), []));
        DispatchOne(ready[k]);
        ReachesStep(Next, old(View()), was, View());
        OneLessReady(rest, completed, ready, k);
        DropFirst(ready, k);
        k := k + 1;
      }
      assert ready[..k] == ready;
      IsReadyFirst(pending, completed, []);
    }

    /** One put of one sub-agent; a step that its agent cannot take is passed over. */
    method AgentStep(step: Step)
      requires Valid()
      modifies this`agents, this`queue
      ensures Valid() && View() == AfterAgentStep(old(View()), step)
    {
      hide InPlanOrder, Distinct;
      if (step.EmitChunk? || step.EmitOther? || step.Raise? || step.Finish?) && step.t in agents {
        var a := agents[step.t];
        var event: Event;
        match step {
          case EmitChunk(t, text) =>
            if !a.status.Live? { return; }
            event := Output(t, text);
            a := a.(status := Live(a.status.chunks + text), emitted := a.emitted + [event]);
          case EmitOther(t, body) =>
            if !a.status.Live? { return; }
            event := Tagged(t, body);
            a := a.(emitted := a.emitted + [event]);
          case Raise(t, error) =>
            if !a.status.Live? { return; }
            event := Failed(t, error);
            a := a.(status := Ending("[FAILED: " + error + "]"), emitted := a.emitted + [event]);
          case Finish(t) =>
            if a.status.Finished? { return; }
            var output := if a.status.Live? then a.status.chunks else a.status.output;
            event := Sentinel(t, output);
            a := a.(status := Finished(output));
        }
        SameKeys(agents, step.t, a);
        agents := agents[step.t := a];
        queue := queue + [event];
      }
    }

    /** Reads one event off the queue and yields it. */
    method DrainOne()
      requires Valid() && Looping(View()) && queue != [] && forall t :: !Ready(View(), t)
      modifies this`queue, this`completed, this`done, this`out
      ensures Valid() && Next(old(View()), View())
      ensures View() == AfterDrain(old(View()))
      ensures |queue| == |old(queue)| - 1
    {
      var event := queue[0];
      queue := queue[1..];
      if event.Sentinel? {
        completed := completed[event.agent := event.output];
        done := done + 1;
        out := out + [Done(event.agent)];
      } else {
        out := out + [event];
      }
      assert Enabled(old(View()), Drain);
    }

    method RunAgents(steps: seq<Step>)
      requires Valid()
      modifies this`agents, this`queue
      ensures Valid() && Reaches(Next, old(View()), View())
      ensures TookSteps(old(agents), agents, steps)
    {
      ReachesSelf(Next, View());
      assert steps[..0] == [];
      for i := 0 to |steps|
        invariant Valid() && Reaches(Next, old(View()), View())
        invariant TookSteps(old(agents), agents, steps[..i])
      {
        ghost var was := View();
        assert steps[..i + 1][..i] == steps[..i];
        StepActs(was, steps[i]);
        AgentStep(steps[i]);
        ReachesJoin(Next, old(View()), was, View());
      }
      assert steps[..|steps|] == steps;
    }

    /** The loop. `schedule` says what the sub-agents do each time the loop waits for
        the queue; if nothing has been put by then, the wait times out. */
    method Run(schedule: seq<seq<Step>>)
      requires Valid() && View() == Init(plan)
      modifies this
      ensures Valid() && Reachable(plan, View())
      ensures AnnouncedInOrder(plan, out)
      ensures AgentsActed(agents, out, schedule, Reads(out) + if aborted then 1 else 0)
      ensures !aborted ==> done == |plan| && queue == [] && WellFormedPlan(plan)
      ensures aborted && WellFormedPlan(plan) ==>
        exists t :: t in agents && !agents[t].status.Finished? && NeverLetFinish(schedule, out, t)
      ensures aborted && WellFormedPlan(plan) && LetsAllFinish(plan, schedule) ==> |schedule| <= Reads(out)
    {
      hide AgentsActed, AnnouncedInOrder, ReadsBefore, TookSteps, DispatchedNow, NeverLetFinish, LetsAllFinish;
      hide InPlanOrder, WellFormedPlan, Next, Reads, EndsUnannounced, Reachable, Reaches, Distinct;
      NothingRead(plan, agents, out, schedule);
      var round := 0;
      StartReachable(plan);
      while done < |plan|
        invariant 0 <= round <= |schedule| && Valid() && Reachable(plan, View()) && !aborted
        invariant round == if Reads(out) < |schedule| then Reads(out) else |schedule|
        invariant done <= |plan|
        invariant AnnouncedInOrder(plan, out) && EndsUnannounced(out)
        invariant AgentsActed(agents, out, schedule, Reads(out))
        decreases |schedule| - round, |queue|
      {
        ghost var start := View();
        DispatchReady();
        StillReachable(plan, start, View());
        DispatchedHaveActed(start.agents, start.out, agents, out, schedule);
        ghost var dispatched := View();
        if round < |schedule| {
          RunAgents(schedule[round]);
          StillReachable(plan, dispatched, View());
          round := round + 1;
        }
        ghost var waiting := View();
        OneMoreRound(dispatched.agents, agents, out, schedule, Reads(out));
        assert forall t :: Ready(waiting, t) == Ready(dispatched, t);
        if queue == [] {
          TimeOutIsNotAStall(plan, waiting);
          TimesOut(plan, waiting);
          aborted := true;
          TimedOut(plan, View(), schedule);
          return;
        }
        DrainOne();
        NextReachable(plan, waiting, View());
        OneMoreRead(plan, waiting, schedule);
      }
      CompletionNeedsWellFormed(plan, View());
      ExitLosesNothing(plan, View());
    }
  }

  /** What is read off the queue is no announcement. */
  lemma YieldedIsNoAnnouncement(plan: seq<Task>, s: State)
    requires Reachable(plan, s) && s.queue != []
    ensures !Yielded(s.queue[0]).Running?
  {
    ReachableInv(plan, s);
    assert s.queue[0] in s.queue;
  }

  lemma OneMoreRead(plan: seq<Task>, s: State, schedule: seq<seq<Step>>)
    requires Reachable(plan, s) && s.queue != [] && AnnouncedInOrder(plan, s.out)
    requires AgentsActed(s.agents, s.out, schedule, Reads(s.out) + 1)
    ensures var after := AfterDrain(s);
      && AnnouncedInOrder(plan, after.out) && EndsUnannounced(after.out)
      && Reads(after.out) == Reads(s.out) + 1
      && AgentsActed(after.agents, after.out, schedule, Reads(after.out))
  {
    hide AnnouncedInOrder, Reachable;
    var e := Yielded(s.queue[0]);
    YieldedIsNoAnnouncement(plan, s);
    AnnouncedOneMore(plan, s.out, e);
    ReadsOneMore(s.out, e);
    var after := AfterDrain(s);
    forall t | t in after.agents ensures ReadsBefore(after.out, t) == ReadsBefore(s.out, t) {
    }
  }

  lemma StartReachable(plan: seq<Task>)
    ensures Reachable(plan, Init(plan))
  {
    ReachesSelf(Next, Init(plan));
  }

  lemma StillReachable(plan: seq<Task>, s: State, s': State)
    requires Reachable(plan, s) && Reaches(Next, s, s')
    ensures Reachable(plan, s')
  {
    ReachesJoin(Next, Init(plan), s, s');
  }

  lemma NextReachable(plan: seq<Task>, s: State, s': State)
    requires Reachable(plan, s) && Next(s, s')
    ensures Reachable(plan, s')
  {
    ReachesStep(Next, Init(plan), s, s');
  }

  lemma TimesOut(plan: seq<Task>, s: State)
    requires Reachable(plan, s) && Enabled(s, TimeOut)
    ensures Reachable(plan, s.(aborted := true))
  {
    assert Next(s, Do(s, TimeOut));
    ReachesStep(Next, Init(plan), s, Do(s, TimeOut));
  }

  /** A wait that times out on a well-formed plan leaves a sub-agent that no round let finish. */
  lemma TimedOut(plan: seq<Task>, s: State, schedule: seq<seq<Step>>)
    requires Reachable(plan, s) && AgentsActed(s.agents, s.out, schedule, Reads(s.out) + 1)
    requires WellFormedPlan(plan) ==> exists t :: t in s.agents && !s.agents[t].status.Finished?
    ensures WellFormedPlan(plan) ==>
      exists t :: t in s.agents && !s.agents[t].status.Finished? && NeverLetFinish(schedule, s.out, t)
    ensures WellFormedPlan(plan) && LetsAllFinish(plan, schedule) ==> |schedule| <= Reads(s.out)
  {
    if WellFormedPlan(plan) {
      var t :| t in s.agents && !s.agents[t].status.Finished?;
      UnfinishedWasNotLet(s.agents, s.out, schedule, t);
      AgentsAreOfPlan(plan, s, t);
      if Reads(s.out) < |schedule| {
        SomeIsNotLet(plan, schedule, s.out, t);
      }
    }
  }

  lemma SomeIsNotLet(plan: seq<Task>, schedule: seq<seq<Step>>, out: seq<Event>, t: TaskId)
    requires NeverLetFinish(schedule, out, t) && Reads(out) < |schedule|
    requires exists i | 0 <= i < |plan| :: plan[i].id == t
    ensures !LetsAllFinish(plan, schedule)
  {
    ReadsBeforeReads(out, t);
    var i :| 0 <= i < |plan| && plan[i].id == t;
    assert Finish(plan[i].id) !in schedule[Reads(out)];
  }

  lemma AgentsAreOfPlan(plan: seq<Task>, s: State, t: TaskId)
    requires Reachable(plan, s) && t in s.agents
    ensures exists i | 0 <= i < |plan| :: plan[i].id == t
  {
    ReachableInv(plan, s);
    ByIdKeys(plan);
  }

  /** On a well-formed plan the wait can only time out while some sub-agent is at work. */
  lemma {:induction false} TimeOutIsNotAStall(plan: seq<Task>, s: State)
    requires Reachable(plan, s) && !s.aborted && s.done < |plan|
    requires s.queue == [] && forall t :: !Ready(s, t)
    ensures WellFormedPlan(plan) ==> exists t :: t in s.agents && !s.agents[t].status.Finished?
  {
    if WellFormedPlan(plan) && forall t | t in s.agents :: s.agents[t].status.Finished? {
      assert Stuck(s);
      NeverStalls(plan, s);
    }
  }
}

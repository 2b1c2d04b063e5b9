/** The multi-agent orchestrator as a state machine: tasks are dispatched when
    their dependencies have completed, sub-agents run concurrently and put events
    on one FIFO queue, and the orchestrator drains that queue into the stream it
    yields. */
module SchedulerModel {
  import opened Runs

  type TaskId = string

  datatype Task = Task(id: TaskId, goal: string, deps: seq<TaskId>)

  /** Events a sub-agent puts on the queue or the orchestrator yields. An agent is
      named by its task. `Sentinel` is only ever queued; `Running` and `Done` are
      only ever yielded. */
  datatype Event =
    | Output(agent: TaskId, text: string)
    | Tagged(agent: TaskId, body: string)
    | Failed(agent: TaskId, error: string)
    | Sentinel(agent: TaskId, output: string)
    | Running(agent: TaskId)
    | Done(agent: TaskId)

  /** `Live` still iterates its agent loop; `Ending` has caught an exception and has
      only the sentinel left to put; `Finished` has put it. */
  datatype Status = Live(chunks: string) | Ending(output: string) | Finished(output: string)

  /** `snapshot` is the copy of the completed outputs taken at dispatch. `emitted` is
      the history of what the agent has put, without its sentinel. */
  datatype Agent = Agent(snapshot: map<TaskId, string>, status: Status, emitted: seq<Event>)

  /** `tasks` and `total` are the plan the loop works through: its tasks by id, and its length. */
  datatype State = State(
    tasks: map<TaskId, Task>,
    total: nat,
    pending: map<TaskId, Task>,
    agents: map<TaskId, Agent>,
    completed: map<TaskId, string>,
    done: nat,
    queue: seq<Event>,
    out: seq<Event>,
    aborted: bool)

  /** A dict comprehension over the tasks: a later task replaces an earlier one of the same id. */
  function ById(plan: seq<Task>): map<TaskId, Task> {
    if plan == [] then map[]
    else
      var task := plan[|plan| - 1];
      ById(plan[..|plan| - 1])[task.id := task]
  }

  function Init(plan: seq<Task>): State {
    State(ById(plan), |plan|, ById(plan), map[], map[], 0, [], [], false)
  }

  function Deps(tasks: map<TaskId, Task>, t: TaskId): seq<TaskId> {
    if t in tasks then tasks[t].deps else []
  }

  predicate Looping(s: State) {
    s.done < s.total && !s.aborted
  }

  predicate IsReady(pending: map<TaskId, Task>, completed: map<TaskId, string>, t: TaskId) {
    t in pending && forall d | d in pending[t].deps :: d in completed
  }

  predicate Ready(s: State, t: TaskId) {
    IsReady(s.pending, s.completed, t)
  }

  datatype Step =
    | Dispatch(t: TaskId)
    | EmitChunk(t: TaskId, text: string)
    | EmitOther(t: TaskId, body: string)
    | Raise(t: TaskId, error: string)
    | Finish(t: TaskId)
    | Drain
    | TimeOut

  predicate IsLive(s: State, t: TaskId) {
    t in s.agents && s.agents[t].status.Live?
  }

  predicate IsFinished(s: State, t: TaskId) {
    t in s.agents && s.agents[t].status.Finished?
  }

  /** Draining waits until the dispatch pass has found no further ready task. */
  ghost predicate Enabled(s: State, step: Step) {
    match step
    case Dispatch(t) => Looping(s) && Ready(s, t)
    case EmitChunk(t, _) => IsLive(s, t)
    case EmitOther(t, _) => IsLive(s, t)
    case Raise(t, _) => IsLive(s, t)
    case Finish(t) => t in s.agents && !s.agents[t].status.Finished?
    case Drain => Looping(s) && s.queue != [] && forall t :: !Ready(s, t)
    case TimeOut => Looping(s) && s.queue == [] && forall t :: !Ready(s, t)
  }

  /** What the orchestrator yields for a queued event. */
  function Yielded(e: Event): Event {
    if e.Sentinel? then Done(e.agent) else e
  }

  function Put(s: State, t: TaskId, status: Status, e: Event): State
    requires t in s.agents
  {
    var a := s.agents[t];
    s.(agents := s.agents[t := a.(status := status, emitted := a.emitted + [e])],
       queue := s.queue + [e])
  }

  function AfterDispatch(s: State, t: TaskId): State {
    s.(pending := s.pending - {t},
       agents := s.agents[t := Agent(s.completed, Live(""), [])],
       out := s.out + [Running(t)])
  }

  function AfterFinish(s: State, t: TaskId): State
    requires t in s.agents && !s.agents[t].status.Finished?
  {
    var a := s.agents[t];
    var output := if a.status.Live? then a.status.chunks else a.status.output;
    s.(agents := s.agents[t := a.(status := Finished(output))],
       queue := s.queue + [Sentinel(t, output)])
  }

  function AfterDrain(s: State): State
    requires s.queue != []
  {
    var e := s.queue[0];
    var rest := s.(queue := s.queue[1..], out := s.out + [Yielded(e)]);
    if e.Sentinel?
    then rest.(completed := s.completed[e.agent := e.output], done := s.done + 1)
    else rest
  }

  ghost function Do(s: State, step: Step): State
    requires Enabled(s, step)
  {
    match step
    case Dispatch(t) => AfterDispatch(s, t)
    case EmitChunk(t, text) => Put(s, t, Live(s.agents[t].status.chunks + text), Output(t, text))
    case EmitOther(t, body) => Put(s, t, s.agents[t].status, Tagged(t, body))
    case Raise(t, error) => Put(s, t, Ending("[FAILED: " + error + "]"), Failed(t, error))
    case Finish(t) => AfterFinish(s, t)
    case Drain => AfterDrain(s)
    case TimeOut => s.(aborted := true)
  }

  ghost predicate Next(s: State, t: State) {
    exists step: Step :: Enabled(s, step) && t == Do(s, step)
  }

  ghost predicate Reachable(plan: seq<Task>, s: State) {
    Reaches(Next, Init(plan), s)
  }

  // ---------------------------------------------------------------------------
  // Streams
  // ---------------------------------------------------------------------------

  /** The events of one agent, in order. */
  function Stream(events: seq<Event>, a: TaskId): seq<Event> {
    if events == [] then []
    else
      var e := events[|events| - 1];
      Stream(events[..|events| - 1], a) + if e.agent == a then [e] else []
  }

  lemma {:induction false} StreamConcat(x: seq<Event>, y: seq<Event>, a: TaskId)
    ensures Stream(x + y, a) == Stream(x, a) + Stream(y, a)
  {
    if y == [] {
      assert x + y == x;
    } else {
      assert (x + y)[..|x + y| - 1] == x + y[..|y| - 1];
      StreamConcat(x, y[..|y| - 1], a);
    }
  }

  lemma {:induction false} StreamMembers(x: seq<Event>, a: TaskId, e: Event)
    ensures e in Stream(x, a) <==> e in x && e.agent == a
  {
    if x != [] {
      StreamMembers(x[..|x| - 1], a, e);
    }
  }

  function YieldedAll(queue: seq<Event>): (r: seq<Event>)
    ensures |r| == |queue|
  {
    seq(|queue|, i requires 0 <= i < |queue| => Yielded(queue[i]))
  }

  /** The stream as it will be once everything now queued has been drained. */
  function Merged(out: seq<Event>, queue: seq<Event>): seq<Event> {
    out + YieldedAll(queue)
  }

  /** What one agent contributes to the merged stream. */
  function AgentStream(t: TaskId, a: Agent): seq<Event> {
    [Running(t)] + a.emitted + if a.status.Finished? then [Done(t)] else []
  }

  function Contribution(agents: map<TaskId, Agent>, t: TaskId): seq<Event> {
    if t in agents then AgentStream(t, agents[t]) else []
  }

  /** The text of the output events of one agent. */
  function Texts(emitted: seq<Event>): string {
    if emitted == [] then ""
    else
      var e := emitted[|emitted| - 1];
      Texts(emitted[..|emitted| - 1]) + if e.Output? then e.text else ""
  }

  /** The output a finished agent reports: its text, or the failure notice. */
  function OutputOf(emitted: seq<Event>): string {
    if emitted != [] && emitted[|emitted| - 1].Failed?
    then "[FAILED: " + emitted[|emitted| - 1].error + "]"
    else Texts(emitted)
  }

  // ---------------------------------------------------------------------------
  // Invariant
  // ---------------------------------------------------------------------------

  ghost predicate Bookkeeping(s: State) {
    && (forall t :: t in s.tasks <==> t in s.pending || t in s.agents)
    && (forall t :: t in s.pending ==> t !in s.agents && s.pending[t] == s.tasks[t])
    && (forall t :: t in s.completed ==> t in s.agents)
    && s.done == |s.completed|
  }

  ghost predicate Emissions(agents: map<TaskId, Agent>) {
    forall t | t in agents ::
      var a := agents[t];
      && (forall e | e in a.emitted :: e.agent == t && (e.Output? || e.Tagged? || e.Failed?))
      && (a.status.Live? ==>
            a.status.chunks == Texts(a.emitted) && forall e | e in a.emitted :: !e.Failed?)
      && (!a.status.Live? ==> a.status.output == OutputOf(a.emitted))
  }

  ghost predicate Queued(agents: map<TaskId, Agent>, completed: map<TaskId, string>, queue: seq<Event>) {
    && (forall e | e in queue :: e.agent in agents && !e.Running? && !e.Done?)
    && (forall e | e in queue && e.Sentinel? ::
          && agents[e.agent].status == Finished(e.output)
          && e.agent !in completed)
    && (forall i, j | 0 <= i < j < |queue| ::
          queue[i].Sentinel? && queue[j].Sentinel? ==> queue[i].agent != queue[j].agent)
    && (forall t | t in completed :: t in agents && agents[t].status == Finished(completed[t]))
  }

  /** Each agent's part of the merged stream is what it contributed, in order. */
  ghost predicate Streams(agents: map<TaskId, Agent>, out: seq<Event>, queue: seq<Event>) {
    forall a :: Stream(Merged(out, queue), a) == Contribution(agents, a)
  }

  ghost predicate HasDone(events: seq<Event>, ts: seq<TaskId>) {
    forall d | d in ts :: Done(d) in events
  }

  /** A task is announced, and later reported done, only after all its dependencies are. */
  ghost predicate Ordered(tasks: map<TaskId, Task>, completed: map<TaskId, string>, out: seq<Event>) {
    && (forall t | t in completed :: Done(t) in out)
    && (forall e | e in out && e.Done? :: e.agent in completed)
    && (forall e | e in out :: !e.Sentinel?)
    && (forall i | 0 <= i < |out| && (out[i].Running? || out[i].Done?) ::
          HasDone(out[..i], Deps(tasks, out[i].agent)))
  }

  ghost predicate Snapshots(tasks: map<TaskId, Task>, agents: map<TaskId, Agent>,
                            completed: map<TaskId, string>)
  {
    forall t | t in agents :: Covers(agents[t].snapshot, completed, Deps(tasks, t))
  }

  /** The snapshot holds the output that each of these tasks completed with. */
  ghost predicate Covers(snapshot: map<TaskId, string>, completed: map<TaskId, string>, deps: seq<TaskId>) {
    forall d | d in deps :: d in completed && d in snapshot && snapshot[d] == completed[d]
  }

  /** What does not depend on the queue. */
  ghost predicate Records(s: State) {
    && Bookkeeping(s)
    && Ordered(s.tasks, s.completed, s.out)
    && Snapshots(s.tasks, s.agents, s.completed)
  }

  ghost predicate Inv(s: State) {
    && Records(s)
    && Emissions(s.agents)
    && Queued(s.agents, s.completed, s.queue)
    && Streams(s.agents, s.out, s.queue)
  }

  lemma {:induction false} InitInv(plan: seq<Task>)
    ensures Inv(Init(plan))
  {
  }

  lemma {:induction false} StreamInsert(x: seq<Event>, e: Event, y: seq<Event>, a: TaskId)
    ensures Stream(x + [e] + y, a) == Stream(x, a) + Stream([e], a) + Stream(y, a)
    ensures Stream([e], a) == if e.agent == a then [e] else []
    ensures Stream(x + y, a) == Stream(x, a) + Stream(y, a)
  {
    StreamConcat(x, [e], a);
    StreamConcat(x + [e], y, a);
    StreamConcat(x, y, a);
    assert [e][..0] == [];
  }

  lemma {:induction false} DispatchKeepsStreams(s: State, t: TaskId)
    requires Bookkeeping(s) && Streams(s.agents, s.out, s.queue) && Ready(s, t)
    ensures Streams(AfterDispatch(s, t).agents, AfterDispatch(s, t).out, AfterDispatch(s, t).queue)
  {
    var s' := AfterDispatch(s, t);
    forall a ensures Stream(Merged(s'.out, s'.queue), a) == Contribution(s'.agents, a) {
      assert Stream(Merged(s.out, s.queue), a) == Contribution(s.agents, a);
      DispatchKeepsStream(s, t, a);
    }
  }

  lemma DispatchKeepsStream(s: State, t: TaskId, a: TaskId)
    requires t !in s.agents && Stream(Merged(s.out, s.queue), a) == Contribution(s.agents, a)
    ensures var s' := AfterDispatch(s, t);
      Stream(Merged(s'.out, s'.queue), a) == Contribution(s'.agents, a)
  {
    NewContribution(s.agents, t, Agent(s.completed, Live(""), []), a);
    AnnouncedStream(s.out, s.queue, t, a);
  }

  lemma NewContribution(agents: map<TaskId, Agent>, t: TaskId, agent: Agent, a: TaskId)
    requires t !in agents && agent.status.Live? && agent.emitted == []
    ensures Contribution(agents[t := agent], a) == if a == t then [Running(t)] else Contribution(agents, a)
    ensures a == t ==> Contribution(agents, a) == []
  {
  }

  lemma AnnouncedStream(out: seq<Event>, queue: seq<Event>, t: TaskId, a: TaskId)
    requires a == t ==> Stream(Merged(out, queue), a) == []
    ensures Stream(Merged(out + [Running(t)], queue), a) ==
      if a == t then [Running(t)] else Stream(Merged(out, queue), a)
  {
    StreamInsert(out, Running(t), YieldedAll(queue), a);
    InsertedStream(Stream(out, a), if a == t then [Running(t)] else [], Stream(YieldedAll(queue), a));
  }

  lemma InsertedStream<T>(front: seq<T>, mid: seq<T>, back: seq<T>)
    ensures mid == [] ==> front + mid + back == front + back
    ensures front + back == [] ==> front + mid + back == mid
  {
    if front + back == [] {
      assert |front| == 0 && |back| == 0;
    }
  }

  lemma {:induction false} AppendKeepsStreams(s: State, s': State, t: TaskId, e: Event)
    requires Streams(s.agents, s.out, s.queue) && e.agent == t
    requires Merged(s'.out, s'.queue) == Merged(s.out, s.queue) + [e]
    requires forall a | a != t :: Contribution(s'.agents, a) == Contribution(s.agents, a)
    requires Contribution(s'.agents, t) == Contribution(s.agents, t) + [e]
    ensures Streams(s'.agents, s'.out, s'.queue)
  {
    forall a ensures Stream(Merged(s'.out, s'.queue), a) == Contribution(s'.agents, a) {
      assert Stream(Merged(s.out, s.queue), a) == Contribution(s.agents, a);
      assert Merged(s'.out, s'.queue)[..|Merged(s'.out, s'.queue)| - 1] == Merged(s.out, s.queue);
    }
  }

  /** The order invariant survives yielding one more event. */
  lemma {:induction false} YieldKeepsOrder(s: State, e: Event, i: nat)
    requires Ordered(s.tasks, s.completed, s.out) && i <= |s.out|
    requires e.Running? || e.Done? ==> HasDone(s.out, Deps(s.tasks, e.agent))
    requires i < |s.out| ==> s.out[i].Running? || s.out[i].Done?
    requires i == |s.out| ==> e.Running? || e.Done?
    ensures HasDone((s.out + [e])[..i], Deps(s.tasks, (s.out + [e])[i].agent))
  {
    assert (s.out + [e])[..i] == s.out[..i];
    assert s.out[..|s.out|] == s.out;
  }

  lemma {:induction false} DispatchKeepsOrder(s: State, t: TaskId)
    requires Bookkeeping(s) && Ordered(s.tasks, s.completed, s.out) && Ready(s, t)
    ensures Ordered(AfterDispatch(s, t).tasks, AfterDispatch(s, t).completed, AfterDispatch(s, t).out)
  {
    var s' := AfterDispatch(s, t);
    assert HasDone(s.out, Deps(s.tasks, t));
    forall i | 0 <= i < |s'.out| && (s'.out[i].Running? || s'.out[i].Done?)
      ensures HasDone(s'.out[..i], Deps(s'.tasks, s'.out[i].agent))
    {
      YieldKeepsOrder(s, Running(t), i);
    }
    forall x | x in s.completed ensures Done(x) in s'.out {
      assert Done(x) in s.out;
    }
  }

  lemma {:induction false} DispatchKeepsBooks(s: State, t: TaskId)
    requires Bookkeeping(s) && Ready(s, t)
    ensures Bookkeeping(AfterDispatch(s, t))
  {
  }

  lemma {:induction false} DispatchKeepsQueue(s: State, t: TaskId)
    requires Bookkeeping(s) && Queued(s.agents, s.completed, s.queue) && Ready(s, t)
    ensures Queued(AfterDispatch(s, t).agents, AfterDispatch(s, t).completed, AfterDispatch(s, t).queue)
  {
  }

  lemma {:induction false} DispatchKeepsSnapshots(s: State, t: TaskId)
    requires Bookkeeping(s) && Snapshots(s.tasks, s.agents, s.completed) && Emissions(s.agents) && Ready(s, t)
    ensures var s' := AfterDispatch(s, t);
      Snapshots(s'.tasks, s'.agents, s'.completed) && Emissions(s'.agents)
  {
  }

  lemma {:induction false} DispatchKeepsInv(s: State, t: TaskId)
    requires Inv(s) && Enabled(s, Dispatch(t))
    ensures Inv(AfterDispatch(s, t))
  {
    DispatchKeepsBooks(s, t);
    DispatchKeepsQueue(s, t);
    DispatchKeepsSnapshots(s, t);
    DispatchKeepsOrder(s, t);
    DispatchKeepsStreams(s, t);
  }

  lemma {:induction false} PutKeepsEmissions(s: State, t: TaskId, status: Status, e: Event)
    requires Emissions(s.agents) && IsLive(s, t)
    requires e.agent == t && (e.Output? || e.Tagged? || e.Failed?)
    requires !status.Finished? && (status.Live? <==> !e.Failed?)
    requires status.Live? ==>
      status.chunks == s.agents[t].status.chunks + if e.Output? then e.text else ""
    requires e.Failed? ==> status == Ending("[FAILED: " + e.error + "]")
    ensures Emissions(Put(s, t, status, e).agents)
  {
    var emitted := s.agents[t].emitted;
    assert (emitted + [e])[..|emitted|] == emitted;
  }

  lemma {:induction false} PutKeepsQueue(s: State, t: TaskId, status: Status, e: Event)
    requires Bookkeeping(s) && Queued(s.agents, s.completed, s.queue) && IsLive(s, t)
    requires e.agent == t && (e.Output? || e.Tagged? || e.Failed?)
    ensures Queued(Put(s, t, status, e).agents, Put(s, t, status, e).completed, Put(s, t, status, e).queue)
  {
    var s' := Put(s, t, status, e);
    forall x | x in s'.queue ensures x in s.queue || x == e {}
  }

  lemma {:induction false} PutKeepsRest(s: State, t: TaskId, status: Status, e: Event)
    requires Records(s) && IsLive(s, t)
    ensures Records(Put(s, t, status, e))
  {
  }

  lemma {:induction false} PutKeepsStreams(s: State, t: TaskId, status: Status, e: Event)
    requires Streams(s.agents, s.out, s.queue) && IsLive(s, t) && !status.Finished?
    requires e.agent == t && !e.Sentinel?
    ensures Streams(Put(s, t, status, e).agents, Put(s, t, status, e).out, Put(s, t, status, e).queue)
  {
    var s' := Put(s, t, status, e);
    assert Merged(s'.out, s'.queue) == Merged(s.out, s.queue) + [e];
    AppendKeepsStreams(s, s', t, e);
  }

  lemma {:induction false} PutKeepsInv(s: State, t: TaskId, status: Status, e: Event)
    requires Inv(s) && IsLive(s, t)
    requires e.agent == t && (e.Output? || e.Tagged? || e.Failed?)
    requires !status.Finished? && (status.Live? <==> !e.Failed?)
    requires status.Live? ==>
      status.chunks == s.agents[t].status.chunks + if e.Output? then e.text else ""
    requires e.Failed? ==> status == Ending("[FAILED: " + e.error + "]")
    ensures Inv(Put(s, t, status, e))
  {
    PutKeepsEmissions(s, t, status, e);
    PutKeepsQueue(s, t, status, e);
    PutKeepsRest(s, t, status, e);
    PutKeepsStreams(s, t, status, e);
  }

  lemma {:induction false} FinishKeepsEmissions(s: State, t: TaskId)
    requires Emissions(s.agents) && Enabled(s, Finish(t))
    ensures Emissions(AfterFinish(s, t).agents)
  {
    var a := s.agents[t];
    if a.status.Live? && a.emitted != [] {
      assert a.emitted[|a.emitted| - 1] in a.emitted;
    }
  }

  lemma {:induction false} FinishKeepsQueue(s: State, t: TaskId)
    requires Bookkeeping(s) && Queued(s.agents, s.completed, s.queue) && Enabled(s, Finish(t))
    ensures Queued(AfterFinish(s, t).agents, AfterFinish(s, t).completed, AfterFinish(s, t).queue)
  {
    var s' := AfterFinish(s, t);
    var e := s'.queue[|s.queue|];
    forall x | x in s'.queue ensures x in s.queue || x == e {}
    forall i | 0 <= i < |s.queue| && s.queue[i].Sentinel? ensures s.queue[i].agent != t {
      assert s.queue[i] in s.queue;
    }
  }

  lemma {:induction false} FinishKeepsRest(s: State, t: TaskId)
    requires Records(s) && Enabled(s, Finish(t))
    ensures Records(AfterFinish(s, t))
  {
  }

  lemma {:induction false} FinishKeepsStreams(s: State, t: TaskId)
    requires Streams(s.agents, s.out, s.queue) && Enabled(s, Finish(t))
    ensures Streams(AfterFinish(s, t).agents, AfterFinish(s, t).out, AfterFinish(s, t).queue)
  {
    var s' := AfterFinish(s, t);
    assert Merged(s'.out, s'.queue) == Merged(s.out, s.queue) + [Done(t)];
    AppendKeepsStreams(s, s', t, Done(t));
  }

  lemma {:induction false} FinishKeepsInv(s: State, t: TaskId)
    requires Inv(s) && Enabled(s, Finish(t))
    ensures Inv(AfterFinish(s, t))
  {
    FinishKeepsEmissions(s, t);
    FinishKeepsQueue(s, t);
    FinishKeepsRest(s, t);
    FinishKeepsStreams(s, t);
  }

  lemma {:induction false} DrainKeepsQueue(s: State)
    requires Queued(s.agents, s.completed, s.queue) && s.queue != []
    ensures Queued(AfterDrain(s).agents, AfterDrain(s).completed, AfterDrain(s).queue)
  {
    var s' := AfterDrain(s);
    var e := s.queue[0];
    assert e in s.queue;
    forall i | 0 <= i < |s'.queue| ensures s'.queue[i] == s.queue[i + 1] {}
    forall x | x in s'.queue ensures x in s.queue {}
  }

  lemma {:induction false} DrainKeepsOrder(s: State)
    requires Records(s) && Queued(s.agents, s.completed, s.queue) && s.queue != []
    ensures Ordered(AfterDrain(s).tasks, AfterDrain(s).completed, AfterDrain(s).out)
  {
    var s' := AfterDrain(s);
    var y := Yielded(s.queue[0]);
    assert s.queue[0] in s.queue;
    DrainedDepsDone(s);
    forall i | 0 <= i < |s'.out| && (s'.out[i].Running? || s'.out[i].Done?)
      ensures HasDone(s'.out[..i], Deps(s'.tasks, s'.out[i].agent))
    {
      YieldKeepsOrder(s, y, i);
    }
    forall x | x in s'.completed ensures Done(x) in s'.out {
      assert x in s.completed ==> Done(x) in s.out;
      assert s'.out[|s.out|] == y;
    }
  }

  lemma {:induction false} DrainedDepsDone(s: State)
    requires Records(s) && Queued(s.agents, s.completed, s.queue) && s.queue != []
    ensures HasDone(s.out, Deps(s.tasks, s.queue[0].agent))
  {
    assert s.queue[0] in s.queue;
  }

  lemma {:induction false} DrainKeepsBooks(s: State)
    requires Bookkeeping(s) && Queued(s.agents, s.completed, s.queue) && s.queue != []
    ensures Bookkeeping(AfterDrain(s))
  {
    assert s.queue[0] in s.queue;
  }

  lemma {:induction false} DrainKeepsSnapshots(s: State)
    requires Queued(s.agents, s.completed, s.queue) && s.queue != []
    requires Snapshots(s.tasks, s.agents, s.completed)
    ensures Snapshots(s.tasks, s.agents, AfterDrain(s).completed)
  {
    var e := s.queue[0];
    assert e in s.queue;
    forall t | t in s.agents
      ensures Covers(s.agents[t].snapshot, AfterDrain(s).completed, Deps(s.tasks, t))
    {
      assert Covers(s.agents[t].snapshot, s.completed, Deps(s.tasks, t));
    }
  }

  lemma {:induction false} DrainKeepsStreams(s: State)
    requires Streams(s.agents, s.out, s.queue) && s.queue != []
    ensures Streams(AfterDrain(s).agents, AfterDrain(s).out, AfterDrain(s).queue)
  {
    var s' := AfterDrain(s);
    assert Merged(s'.out, s'.queue) == Merged(s.out, s.queue);
    forall a ensures Stream(Merged(s'.out, s'.queue), a) == Contribution(s'.agents, a) {
      assert Stream(Merged(s.out, s.queue), a) == Contribution(s.agents, a);
    }
  }

  lemma {:induction false} DrainKeepsInv(s: State)
    requires Inv(s) && Enabled(s, Drain)
    ensures Inv(AfterDrain(s))
  {
    DrainKeepsQueue(s);
    DrainKeepsOrder(s);
    DrainKeepsBooks(s);
    DrainKeepsSnapshots(s);
    DrainKeepsStreams(s);
  }

  lemma {:induction false} TimeOutKeepsInv(s: State)
    requires Inv(s)
    ensures Inv(s.(aborted := true))
  {
  }

  lemma {:induction false} DoKeepsInv(s: State, step: Step)
    requires Inv(s) && Enabled(s, step)
    ensures Inv(Do(s, step))
  {
    match step {
      case Dispatch(a) => DispatchKeepsInv(s, a);
      case EmitChunk(a, text) => PutKeepsInv(s, a, Live(s.agents[a].status.chunks + text), Output(a, text));
      case EmitOther(a, body) => PutKeepsInv(s, a, s.agents[a].status, Tagged(a, body));
      case Raise(a, error) => PutKeepsInv(s, a, Ending("[FAILED: " + error + "]"), Failed(a, error));
      case Finish(a) => FinishKeepsInv(s, a);
      case Drain => DrainKeepsInv(s);
      case TimeOut => TimeOutKeepsInv(s);
    }
  }

  lemma {:induction false} DoKeepsPlan(s: State, step: Step)
    requires Enabled(s, step)
    ensures Do(s, step).tasks == s.tasks && Do(s, step).total == s.total
  {
  }

  ghost predicate InvFor(plan: seq<Task>, s: State) {
    Inv(s) && s.tasks == ById(plan) && s.total == |plan|
  }

  lemma {:induction false} StepKeepsInv(plan: seq<Task>, s: State, t: State)
    requires InvFor(plan, s) && Next(s, t)
    ensures InvFor(plan, t)
  {
    var step :| Enabled(s, step) && t == Do(s, step);
    DoKeepsInv(s, step);
    DoKeepsPlan(s, step);
  }

  lemma {:induction false} ReachableInv(plan: seq<Task>, s: State)
    requires Reachable(plan, s)
    ensures InvFor(plan, s)
  {
    InitInv(plan);
    forall u, v | InvFor(plan, u) && Next(u, v) ensures InvFor(plan, v) {
      StepKeepsInv(plan, u, v);
    }
    InvariantReached(Next, u => InvFor(plan, u), Init(plan), s);
  }
}

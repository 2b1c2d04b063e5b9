/** What the orchestrator's loop guarantees on every run: the merged stream loses
    nothing, dispatch respects the dependencies, and the loop completes exactly for
    the plans that are free of duplicate ids, unknown dependencies and cycles. */
module Scheduler {
  import opened Runs
  import opened SchedulerModel
  import opened Digraph

  // ---------------------------------------------------------------------------
  // The merged stream
  // ---------------------------------------------------------------------------

  /** At any time the yielded events of an agent are a prefix of what it announced,
      put and finished with, and the queue holds exactly the rest. */
  lemma {:induction false} YieldedThenQueued(plan: seq<Task>, s: State, t: TaskId)
    requires Reachable(plan, s)
    ensures Stream(s.out, t) + Stream(YieldedAll(s.queue), t) == Contribution(s.agents, t)
  {
    ReachableInv(plan, s);
    StreamConcat(s.out, YieldedAll(s.queue), t);
  }

  lemma {:induction false} LastIsLast<T>(front: seq<T>, back: seq<T>, body: seq<T>, last: T)
    requires front + back == body + [last]
    requires last !in body && last in front
    ensures back == []
  {
    var k :| 0 <= k < |front| && front[k] == last;
    var all := body + [last];
    assert all[k] == last;
    assert forall i | 0 <= i < |body| :: all[i] in body;
  }

  /** Once an agent's `Done` has been yielded nothing of it is left on the queue. */
  lemma {:induction false} NothingAfterDone(s: State, t: TaskId)
    requires Inv(s) && t in s.completed
    ensures Stream(YieldedAll(s.queue), t) == []
  {
    assert Done(t) in s.out;
    FinishedContribution(s.agents, s.completed, s.out, s.queue, t);
    NothingAfterLast(s.out, s.queue, t, [Running(t)] + s.agents[t].emitted);
  }

  lemma FinishedContribution(
      agents: map<TaskId, Agent>, completed: map<TaskId, string>, out: seq<Event>, queue: seq<Event>, t: TaskId)
    requires Streams(agents, out, queue) && Queued(agents, completed, queue) && Emissions(agents)
    requires t in agents && t in completed
    ensures var body := [Running(t)] + agents[t].emitted;
      Done(t) !in body && Stream(Merged(out, queue), t) == body + [Done(t)]
  {
    assert Stream(Merged(out, queue), t) == Contribution(agents, t);
  }

  lemma NothingAfterLast(out: seq<Event>, queue: seq<Event>, t: TaskId, body: seq<Event>)
    requires Done(t) in out && Done(t) !in body
    requires Stream(Merged(out, queue), t) == body + [Done(t)]
    ensures Stream(YieldedAll(queue), t) == []
  {
    StreamMembers(out, t, Done(t));
    StreamConcat(out, YieldedAll(queue), t);
    LastIsLast(Stream(out, t), Stream(YieldedAll(queue), t), body, Done(t));
  }

  lemma {:induction false} QueuedHasStream(queue: seq<Event>)
    requires queue != []
    ensures Stream(YieldedAll(queue), queue[0].agent) != []
  {
    var t, e := queue[0].agent, Yielded(queue[0]);
    assert YieldedAll(queue)[0] == e;
    StreamMembers(YieldedAll(queue), t, e);
  }

  lemma ExitEmptiesQueue(plan: seq<Task>, s: State)
    requires InvFor(plan, s) && s.done == |plan|
    ensures s.queue == []
    ensures s.completed.Keys == s.agents.Keys == ById(plan).Keys
  {
    EveryIdCompleted(plan, s);
    if s.queue != [] {
      assert s.queue[0] in s.queue;
      QueuedHasStream(s.queue);
      NothingAfterDone(s, s.queue[0].agent);
    }
  }

  lemma DrainedStream(agents: map<TaskId, Agent>, completed: map<TaskId, string>, out: seq<Event>, t: TaskId)
    requires Streams(agents, out, []) && Queued(agents, completed, []) && Emissions(agents)
    requires t in agents && t in completed
    ensures Stream(out, t) == [Running(t)] + agents[t].emitted + [Done(t)]
    ensures completed[t] == OutputOf(agents[t].emitted)
  {
    assert Merged(out, []) == out;
    FinishedContribution(agents, completed, out, [], t);
  }

  /** When the loop exits because every task is done, nothing was lost: the queue is
      empty, each agent's stream is "running", its events, "done", and the recorded
      output is the text it streamed, or the failure notice. */
  lemma {:induction false} ExitLosesNothing(plan: seq<Task>, s: State)
    requires Reachable(plan, s) && s.done == |plan|
    ensures s.queue == []
    ensures s.completed.Keys == s.agents.Keys == ById(plan).Keys
    ensures forall t | t in s.agents ::
      && Stream(s.out, t) == [Running(t)] + s.agents[t].emitted + [Done(t)]
      && s.completed[t] == OutputOf(s.agents[t].emitted)
  {
    ReachableInv(plan, s);
    ExitEmptiesQueue(plan, s);
    forall t | t in s.agents
      ensures Stream(s.out, t) == [Running(t)] + s.agents[t].emitted + [Done(t)]
      ensures s.completed[t] == OutputOf(s.agents[t].emitted)
    {
      DrainedStream(s.agents, s.completed, s.out, t);
    }
  }

  // ---------------------------------------------------------------------------
  // Dispatch order
  // ---------------------------------------------------------------------------

  /** Dispatch and completion order extend the dependency order, and the snapshot an
      agent starts from holds the final output of each of its dependencies. */
  lemma {:induction false} DispatchFollowsDependencies(plan: seq<Task>, s: State, t: TaskId, d: TaskId)
    requires Reachable(plan, s) && t in s.agents && d in Deps(ById(plan), t)
    ensures d in s.completed && d in s.agents[t].snapshot
    ensures s.agents[t].snapshot[d] == s.completed[d]
    ensures forall i | 0 <= i < |s.out| && s.out[i] in {Running(t), Done(t)} ::
      exists k :: 0 <= k < i && s.out[k] == Done(d)
  {
    ReachableInv(plan, s);
    assert Covers(s.agents[t].snapshot, s.completed, Deps(s.tasks, t));
    forall i | 0 <= i < |s.out| && s.out[i] in {Running(t), Done(t)}
      ensures exists k :: 0 <= k < i && s.out[k] == Done(d)
    {
      assert HasDone(s.out[..i], Deps(s.tasks, t));
      assert Done(d) in s.out[..i];
    }
  }

  ghost predicate Counts(out: seq<Event>, agents: map<TaskId, Agent>, completed: map<TaskId, string>) {
    forall t ::
      && multiset(out)[Running(t)] == (if t in agents then 1 else 0)
      && multiset(out)[Done(t)] == (if t in completed then 1 else 0)
  }

  ghost predicate Counted(s: State) {
    Counts(s.out, s.agents, s.completed)
  }

  lemma {:induction false} DrainKeepsCounts(s: State)
    requires Counted(s) && Queued(s.agents, s.completed, s.queue) && s.queue != []
    ensures Counted(AfterDrain(s))
  {
    assert s.queue[0] in s.queue;
  }

  lemma {:induction false} DispatchKeepsCounts(s: State, t: TaskId)
    requires Counted(s) && Bookkeeping(s) && Ready(s, t)
    ensures Counted(AfterDispatch(s, t))
  {
  }

  lemma {:induction false} StepKeepsCounts(s: State, step: Step)
    requires Counted(s) && Inv(s) && Enabled(s, step)
    ensures Counted(Do(s, step))
  {
    if step.Drain? {
      DrainKeepsCounts(s);
    } else if step.Dispatch? {
      DispatchKeepsCounts(s, step.t);
    }
  }

  /** Each task is announced once, when it is dispatched, and reported done once, when it completes. */
  lemma {:induction false} DispatchedOnce(plan: seq<Task>, s: State)
    requires Reachable(plan, s)
    ensures Counted(s)
  {
    InitInv(plan);
    var inv := u => InvFor(plan, u) && Counted(u);
    forall u, v | inv(u) && Next(u, v) ensures inv(v) {
      var step :| Enabled(u, step) && v == Do(u, step);
      StepKeepsCounts(u, step);
      StepKeepsInv(plan, u, v);
    }
    InvariantReached(Next, inv, Init(plan), s);
  }

  // ---------------------------------------------------------------------------
  // Which plans complete
  // ---------------------------------------------------------------------------

  predicate UniqueIds(plan: seq<Task>) {
    forall i, j | 0 <= i < j < |plan| :: plan[i].id != plan[j].id
  }

  predicate KnownDeps(tasks: map<TaskId, Task>) {
    forall t | t in tasks :: forall d | d in Deps(tasks, t) :: d in tasks
  }

  ghost function Waits(tasks: map<TaskId, Task>): (TaskId, TaskId) -> bool {
    (t, d) => d in Deps(tasks, t)
  }

  ghost predicate WellFormedPlan(plan: seq<Task>) {
    && UniqueIds(plan)
    && KnownDeps(ById(plan))
    && forall walk :: !Cycle(Waits(ById(plan)), walk)
  }

  function Ids(plan: seq<Task>): set<TaskId> {
    set i | 0 <= i < |plan| :: plan[i].id
  }

  /** Of the tasks of one id the last in the plan counts. */
  lemma {:induction false} LastOfIdCounts(plan: seq<Task>, i: nat)
    requires i < |plan| && forall j | i < j < |plan| :: plan[j].id != plan[i].id
    ensures plan[i].id in ById(plan) && ById(plan)[plan[i].id] == plan[i]
  {
    if i < |plan| - 1 {
      LastOfIdCounts(plan[..|plan| - 1], i);
    }
  }

  lemma {:induction false} ByIdKeys(plan: seq<Task>)
    ensures ById(plan).Keys == Ids(plan)
  {
    if plan != [] {
      var front := plan[..|plan| - 1];
      ByIdKeys(front);
      assert Ids(plan) == Ids(front) + {plan[|plan| - 1].id} by {
        forall x | x in Ids(plan) ensures x in Ids(front) + {plan[|plan| - 1].id} {
          var i :| 0 <= i < |plan| && plan[i].id == x;
          assert i < |front| ==> front[i] == plan[i];
        }
        forall x | x in Ids(front) ensures x in Ids(plan) {
          var i :| 0 <= i < |front| && front[i].id == x;
          assert plan[i].id == x;
        }
      }
    }
  }

  lemma {:induction false} UniqueExtends(front: seq<Task>, last: Task)
    ensures UniqueIds(front + [last]) <==> UniqueIds(front) && last.id !in Ids(front)
  {
    var plan := front + [last];
    if last.id in Ids(front) {
      var i :| 0 <= i < |front| && front[i].id == last.id;
      assert plan[i].id == plan[|front|].id;
    }
    if !UniqueIds(front) {
      var i, j :| 0 <= i < j < |front| && front[i].id == front[j].id;
      assert plan[i].id == plan[j].id;
    }
  }

  /** A plan has as many ids as tasks exactly when no id repeats. */
  lemma {:induction false} IdCount(plan: seq<Task>)
    ensures |ById(plan)| <= |plan|
    ensures |ById(plan)| == |plan| <==> UniqueIds(plan)
  {
    if plan != [] {
      var front, last := plan[..|plan| - 1], plan[|plan| - 1];
      IdCount(front);
      ByIdKeys(front);
      UniqueExtends(front, last);
      assert plan == front + [last];
      MapSizes(ById(front), last.id, last);
    }
  }

  lemma {:induction false} SubsetOfSameSize<T>(a: set<T>, b: set<T>)
    requires a <= b && |a| >= |b|
    ensures a == b
  {
    assert |b - a| == |b| - |a|;
    assert b - a == {};
  }

  /** `done_count` can only reach the number of tasks if every id is distinct and completed. */
  lemma {:induction false} EveryIdCompleted(plan: seq<Task>, s: State)
    requires InvFor(plan, s) && s.done == |plan|
    ensures UniqueIds(plan)
    ensures s.completed.Keys == s.agents.Keys == ById(plan).Keys
  {
    IdCount(plan);
    assert s.completed.Keys <= s.agents.Keys <= ById(plan).Keys;
    assert |s.completed.Keys| == |s.completed| && |ById(plan).Keys| == |ById(plan)|;
    SubsetOfSameSize(s.completed.Keys, ById(plan).Keys);
  }

  /** The place in the stream where a completed task was first reported done. */
  ghost function DoneAt(s: State, t: TaskId): (i: nat)
    requires Inv(s) && t in s.completed
    ensures i < |s.out| && s.out[i] == Done(t)
    ensures forall k | 0 <= k < i :: s.out[k] != Done(t)
  {
    First(s.out, Done(t))
  }

  ghost function First(out: seq<Event>, e: Event): (i: nat)
    requires e in out
    ensures i < |out| && out[i] == e
    ensures forall k | 0 <= k < i :: out[k] != e
  {
    if e in out[..|out| - 1] then First(out[..|out| - 1], e) else |out| - 1
  }

  lemma {:induction false} DependencyDoneEarlier(s: State, t: TaskId, d: TaskId)
    requires Inv(s) && t in s.completed && d in Deps(s.tasks, t)
    ensures d in s.completed && DoneAt(s, d) < DoneAt(s, t)
  {
    var i := DoneAt(s, t);
    assert HasDone(s.out[..i], Deps(s.tasks, t));
    assert Done(d) in s.out[..i];
    var j :| 0 <= j < i && s.out[j] == Done(d);
    assert s.out[j] in s.out;
    assert DoneAt(s, d) <= j;
  }

  lemma {:induction false} CompletionNeedsWellFormed(plan: seq<Task>, s: State)
    requires Reachable(plan, s) && s.done == |plan|
    ensures WellFormedPlan(plan)
  {
    ReachableInv(plan, s);
    EveryIdCompleted(plan, s);
    forall t, d | t in s.tasks && d in Deps(s.tasks, t) ensures d in s.tasks {
      assert t in s.agents;
      assert Covers(s.agents[t].snapshot, s.completed, Deps(s.tasks, t));
    }
    forall walk ensures !Cycle(Waits(ById(plan)), walk) {
      CompletedHasNoCycle(s, walk);
    }
  }

  lemma {:induction false} CompletedHasNoCycle(s: State, walk: seq<TaskId>)
    requires Inv(s) && KnownDeps(s.tasks)
    requires forall t | t in s.tasks :: t in s.completed
    ensures !Cycle(Waits(s.tasks), walk)
  {
    if Cycle(Waits(s.tasks), walk) {
      var rank := t => if t in s.completed then DoneAt(s, t) else 0;
      forall i, j | 0 <= i < j < |walk| && j == i + 1 ensures rank(walk[j]) < rank(walk[i]) {
        assert Waits(s.tasks)(walk[i], walk[j]);
        assert walk[i] in s.tasks;
        DependencyDoneEarlier(s, walk[i], walk[j]);
      }
      RankFalls(rank, walk, |walk| - 1);
    }
  }

  // ---------------------------------------------------------------------------
  // Progress
  // ---------------------------------------------------------------------------

  /** No sub-agent has anything left to do and the orchestrator cannot move. */
  ghost predicate Stuck(s: State) {
    && (forall t | t in s.agents :: s.agents[t].status.Finished?)
    && !Enabled(s, Drain)
    && forall t :: !Enabled(s, Dispatch(t))
  }

  lemma {:induction false} FinishedIsDone(s: State, t: TaskId)
    requires Inv(s) && s.queue == [] && IsFinished(s, t)
    ensures t in s.completed
  {
    assert Merged(s.out, s.queue) == s.out;
    assert Stream(Merged(s.out, s.queue), t) == Contribution(s.agents, t);
    assert Done(t) in AgentStream(t, s.agents[t]);
    StreamMembers(s.out, t, Done(t));
  }

  lemma {:induction false} StuckHasDrained(s: State)
    requires Inv(s) && Stuck(s) && s.queue == []
    ensures forall t | t in s.agents :: t in s.completed
  {
    forall t | t in s.agents ensures t in s.completed {
      FinishedIsDone(s, t);
    }
  }

  /** The tasks still pending when nothing can move all wait for one another. */
  lemma {:induction false} StuckPendingIsKnot(s: State)
    requires Inv(s) && KnownDeps(s.tasks)
    requires forall t | t in s.agents :: t in s.completed
    requires forall t :: !Ready(s, t)
    ensures Knot(Waits(s.tasks), s.pending.Keys)
  {
    var edge := Waits(s.tasks);
    forall t | t in s.pending.Keys ensures HasEdgeInto(edge, t, s.pending.Keys) {
      assert !Ready(s, t);
      var d :| d in s.pending[t].deps && d !in s.completed;
      assert edge(t, d);
      assert d in s.tasks;
    }
  }

  lemma {:induction false} StuckPendingHasCycle(s: State) returns (walk: seq<TaskId>)
    requires Inv(s) && KnownDeps(s.tasks) && s.pending != map[]
    requires forall t | t in s.agents :: t in s.completed
    requires forall t :: !Ready(s, t)
    ensures Cycle(Waits(s.tasks), walk)
  {
    var t :| t in s.pending;
    assert t in s.pending.Keys;
    StuckPendingIsKnot(s);
    walk := KnotHasCycle(Waits(s.tasks), s.pending.Keys);
  }

  lemma {:induction false} DoneWithinPlan(plan: seq<Task>, s: State)
    requires InvFor(plan, s)
    ensures s.done <= |plan|
    ensures UniqueIds(plan) && s.pending == map[] && (forall t | t in s.agents :: t in s.completed)
      ==> s.done == |plan|
  {
    IdCount(plan);
    MapSubset(s.completed, s.tasks);
    if s.pending == map[] && (forall t | t in s.agents :: t in s.completed) {
      MapSubset(s.tasks, s.completed);
    }
  }

  lemma {:induction false} MapSubset<K, V, W>(a: map<K, V>, b: map<K, W>)
    ensures (forall k | k in a :: k in b) ==> |a| <= |b|
  {
    if forall k | k in a :: k in b {
      assert |b.Keys - a.Keys| == |b.Keys| - |a.Keys|;
    }
  }

  /** The loop never stalls on a well-formed plan: when nothing can move, all is done. */
  lemma {:induction false} NeverStalls(plan: seq<Task>, s: State)
    requires WellFormedPlan(plan) && Reachable(plan, s)
    requires Stuck(s) && !s.aborted
    ensures s.done == |plan|
  {
    ReachableInv(plan, s);
    DoneWithinPlan(plan, s);
    if s.done != |plan| {
      forall t ensures !Ready(s, t) {
        assert !Enabled(s, Dispatch(t));
      }
      StuckHasDrained(s);
      if s.pending != map[] {
        var walk := StuckPendingHasCycle(s);
      }
    }
  }

  ghost function LiveAgents(agents: map<TaskId, Agent>): set<TaskId> {
    set t | t in agents && !agents[t].status.Finished?
  }

  /** What is left to do if no agent emits anything more. */
  ghost function Work(s: State): nat {
    3 * |s.pending| + 2 * |LiveAgents(s.agents)| + |s.queue| + if s.aborted then 0 else 1
  }

  predicate Emits(step: Step) {
    step.EmitChunk? || step.EmitOther? || step.Raise?
  }

  lemma {:induction false} MapSizes<K, V>(m: map<K, V>, k: K, v: V)
    ensures |m - {k}| == |m| - if k in m then 1 else 0
    ensures |m[k := v]| == |m| + if k in m then 0 else 1
  {
    assert (m - {k}).Keys == m.Keys - {k};
    assert m[k := v].Keys == m.Keys + {k};
    assert |m.Keys| == |m| && |(m - {k}).Keys| == |m - {k}| && |m[k := v].Keys| == |m[k := v]|;
  }

  lemma {:induction false} LiveSizes(agents: map<TaskId, Agent>, t: TaskId, a: Agent)
    ensures a.status.Finished? ==> LiveAgents(agents[t := a]) == LiveAgents(agents) - {t}
    ensures !a.status.Finished? ==> LiveAgents(agents[t := a]) == LiveAgents(agents) + {t}
  {
  }

  lemma {:induction false} AgentSizes(agents: map<TaskId, Agent>, t: TaskId, a: Agent)
    ensures |agents[t := a]| == |agents| + if t in agents then 0 else 1
    ensures |LiveAgents(agents[t := a])| == |LiveAgents(agents)|
      + (if !a.status.Finished? then 1 else 0)
      - (if t in agents && !agents[t].status.Finished? then 1 else 0)
  {
    MapSizes(agents, t, a);
    LiveSizes(agents, t, a);
    var live := LiveAgents(agents);
    assert t in live <==> t in agents && !agents[t].status.Finished?;
    assert |live + {t}| == |live| + if t in live then 0 else 1;
    assert |live - {t}| == |live| - if t in live then 1 else 0;
  }

  lemma DispatchSizes(s: State, t: TaskId)
    requires Bookkeeping(s) && Enabled(s, Dispatch(t))
    ensures var s' := Do(s, Dispatch(t));
      && |s'.pending| == |s.pending| - 1 && |s'.agents| == |s.agents| + 1
      && |LiveAgents(s'.agents)| == |LiveAgents(s.agents)| + 1
  {
    MapSizes(s.pending, t, s.pending[t]);
    AgentSizes(s.agents, t, Agent(s.completed, Live(""), []));
  }

  /** How each step changes the sizes that measure progress. */
  lemma {:induction false} StepSizes(s: State, step: Step)
    requires Bookkeeping(s) && Enabled(s, step)
    ensures var s' := Do(s, step);
      && |s'.pending| == |s.pending| - (if step.Dispatch? then 1 else 0)
      && |s'.agents| == |s.agents| + (if step.Dispatch? then 1 else 0)
      && |LiveAgents(s'.agents)| == |LiveAgents(s.agents)|
           + (if step.Dispatch? then 1 else if step.Finish? then -1 else 0)
  {
    if step.Dispatch? {
      DispatchSizes(s, step.t);
    } else if !step.Drain? && !step.TimeOut? {
      AgentSizes(s.agents, step.t, Do(s, step).agents[step.t]);
    }
  }

  lemma {:induction false} StepQueues(s: State, step: Step)
    requires Enabled(s, step)
    ensures var s' := Do(s, step);
      && |s'.queue| == |s.queue| + (if step.Drain? then -1 else if step.Dispatch? || step.TimeOut? then 0 else 1)
      && |s'.out| == |s.out| + (if step.Drain? || step.Dispatch? then 1 else 0)
      && s'.aborted == (s.aborted || step.TimeOut?)
      && (step.TimeOut? ==> !s.aborted)
  {
  }

  lemma {:induction false} StepWork(s: State, step: Step)
    requires Inv(s) && Enabled(s, step)
    ensures Work(Do(s, step)) == Work(s) + if Emits(step) then 1 else -1
  {
    StepSizes(s, step);
    StepQueues(s, step);
  }

  ghost predicate Moves(s: State, step: Step) {
    !Emits(step) && !step.TimeOut? && Enabled(s, step)
  }

  lemma {:induction false} StuckOrMoves(s: State)
    ensures Stuck(s) || exists step :: Moves(s, step)
  {
    if t :| t in s.agents && !s.agents[t].status.Finished? {
      assert Moves(s, Finish(t));
    } else if Enabled(s, Drain) {
      assert Moves(s, Drain);
    } else if t :| Enabled(s, Dispatch(t)) {
      assert Moves(s, Dispatch(t));
    }
  }

  /** A run in which agents emit nothing more, up to the point where nothing can move. */
  lemma {:induction false} RunUntilStuck(plan: seq<Task>, s: State) returns (s': State)
    requires Reachable(plan, s) && !s.aborted
    ensures Reachable(plan, s') && Stuck(s') && !s'.aborted
    decreases Work(s)
  {
    s' := s;
    StuckOrMoves(s);
    if !Stuck(s) {
      var step :| Moves(s, step);
      ReachableInv(plan, s);
      StepWork(s, step);
      StepQueues(s, step);
      ReachesStep(Next, Init(plan), s, Do(s, step));
      s' := RunUntilStuck(plan, Do(s, step));
    }
  }

  /** The loop can complete a plan exactly when the plan is well-formed; and on a
      well-formed plan every run that is not timed out and can go no further has completed. */
  lemma {:induction false} CompletesIffWellFormed(plan: seq<Task>)
    ensures WellFormedPlan(plan) <==> exists s :: Reachable(plan, s) && s.done == |plan|
    ensures WellFormedPlan(plan) <==>
      forall s | Reachable(plan, s) && Stuck(s) && !s.aborted :: s.done == |plan|
  {
    ReachesSelf(Next, Init(plan));
    var end := RunUntilStuck(plan, Init(plan));
    if WellFormedPlan(plan) {
      forall s | Reachable(plan, s) && Stuck(s) && !s.aborted ensures s.done == |plan| {
        NeverStalls(plan, s);
      }
      assert end.done == |plan|;
    } else {
      forall s | Reachable(plan, s) ensures s.done != |plan| {
        if s.done == |plan| {
          CompletionNeedsWellFormed(plan, s);
        }
      }
      assert end.done != |plan|;
    }
  }

  /** How many events the agents have put, sentinels aside. */
  ghost function Emitted(s: State): int {
    |s.out| + |s.queue| - 2 * |s.agents| + |LiveAgents(s.agents)|
  }

  lemma {:induction false} StepEmitted(s: State, step: Step)
    requires Inv(s) && Enabled(s, step)
    ensures Emitted(Do(s, step)) == Emitted(s) + if Emits(step) then 1 else 0
  {
    StepSizes(s, step);
    StepQueues(s, step);
  }

  lemma {:induction false} StepCounted(plan: seq<Task>, s: State, t: State)
    requires InvFor(plan, s) && Next(s, t)
    ensures InvFor(plan, t)
    ensures 2 * Emitted(t) - Work(t) == 2 * Emitted(s) - Work(s) + 1
  {
    var step :| Enabled(s, step) && t == Do(s, step);
    StepWork(s, step);
    StepEmitted(s, step);
    StepKeepsInv(plan, s, t);
  }

  /** The loop cannot run on without its agents: the length of any run is settled by
      the number of events they emit, whatever the interleaving. */
  lemma {:induction false} RunLength(plan: seq<Task>, run: seq<State>)
    requires IsRun(Next, run) && run[0] == Init(plan)
    ensures var s := run[|run| - 1];
      |run| - 1 == 2 * Emitted(s) + 3 * |ById(plan)| + 1 - Work(s)
    ensures InvFor(plan, run[|run| - 1])
  {
    var n := |run| - 1;
    if n == 0 {
      InitInv(plan);
      assert LiveAgents(map[]) == {};
    } else {
      RunLength(plan, run[..n]);
      assert Next(run[n - 1], run[n]);
      StepCounted(plan, run[n - 1], run[n]);
    }
  }
}

/** The dependency swap: the virtual environment is replaced by two renames under an
    armed deadman. A tree is known by its identity, and each name holds at most one. */
module VenvSwap {
  import opened Options
  import opened Runs

  type Tree = string

  /** Each value names the statement that is executed next. */
  datatype Boot = Look | Probe | Disarm | Reap | Unlink | Resolved

  datatype Arm = Idle | WriteState | ArmTimer | RenameLive | RenameCandidate | Exit | UndoDisarm | UndoUnlink

  /** `live` is the tree under `venv`, `aside` the one under `.venvs/old-<id>` of the swap
      at hand, `staged` the one under the candidate path. `original` and `candidate`
      are the two trees of the last swap, `proven` the trees that a process has passed
      the health probe with, and `stranded` records that the deadman was disarmed with
      nothing live, after a second rename had failed. */
  datatype State = State(
    live: Option<Tree>,
    aside: Option<Tree>,
    staged: Option<Tree>,
    pending: bool,
    timer: bool,
    alive: bool,
    boot: Boot,
    arm: Arm,
    original: Tree,
    candidate: Tree,
    proven: set<Tree>,
    stranded: bool)

  function Init(tree: Tree): State {
    State(Some(tree), None, None, false, false, true, Look, Idle, tree, tree, {tree}, false)
  }

  datatype Step = StartArm(candidate: Tree) | ArmStep(ok: bool) | BootStep(healthy: bool) | Crash | Respawn | Fire

  /** A process needs an environment to be started from. The candidate has been built
      afresh. */
  predicate Possible(s: State, step: Step) {
    match step
    case StartArm(candidate) =>
      s.alive && s.arm.Idle? && !s.pending && s.live.Some? && candidate !in s.proven
    case ArmStep(_) => s.alive && !s.arm.Idle?
    case BootStep(_) => s.alive && !s.boot.Resolved?
    case Crash => s.alive
    case Respawn => !s.alive && s.live.Some?
    case Fire => s.timer
  }

  /** A swap starts after the boot task has looked for a pending one. */
  predicate Enabled(s: State, step: Step) {
    Possible(s, step) && (step.StartArm? ==> !s.boot.Look?)
  }

  /** The next statement of `arm_and_swap_venv`; `ok` says whether it succeeds. */
  function AfterArm(s: State, ok: bool): State {
    match s.arm
    case Idle => s
    case WriteState => s.(pending := true, arm := ArmTimer)
    case ArmTimer => if ok then s.(timer := true, arm := RenameLive) else s.(arm := UndoUnlink)
    case RenameLive =>
      if ok then s.(aside := s.live, live := None, arm := RenameCandidate) else s.(arm := UndoDisarm)
    case RenameCandidate =>
      if ok then s.(live := s.staged, staged := None, arm := Exit)
      else s.(arm := UndoDisarm)
    case Exit => s.(alive := false)
    case UndoDisarm => s.(timer := false, arm := UndoUnlink, stranded := s.live.None?)
    case UndoUnlink => s.(pending := false, arm := Idle)
  }

  /** The next statement of `boot_venv_commit`; `healthy` is what its one probe finds. */
  function AfterBoot(s: State, healthy: bool): State {
    match s.boot
    case Look => if s.pending then s.(boot := Probe) else s.(boot := Resolved)
    case Probe =>
      if healthy && s.live.Some? then s.(boot := Disarm, proven := s.proven + {s.live.value})
      else s.(boot := Resolved)
    case Disarm => s.(timer := false, boot := Reap)
    case Reap => s.(aside := None, boot := Unlink)
    case Unlink => s.(pending := false, boot := Resolved)
    case Resolved => s
  }

  /** The revert renames the old tree back, if it was moved, and restarts the service. */
  function AfterFire(s: State): State {
    (if s.aside.Some? then s.(live := s.aside, aside := None) else s).(timer := false, alive := false)
  }

  function Do(s: State, step: Step): State {
    match step
    case StartArm(candidate) =>
      s.(arm := WriteState, staged := Some(candidate), candidate := candidate,
         original := if s.live.Some? then s.live.value else s.original)
    case ArmStep(ok) => AfterArm(s, ok)
    case BootStep(healthy) => AfterBoot(s, healthy)
    case Crash => s.(alive := false)
    case Respawn => s.(alive := true, boot := Look, arm := Idle)
    case Fire => AfterFire(s)
  }

  ghost predicate Next(s: State, t: State) {
    exists step: Step :: Enabled(s, step) && t == Do(s, step)
  }

  ghost predicate Reachable(s: State) {
    exists tree :: Reaches(Next, Init(tree), s)
  }

  // ---------------------------------------------------------------------------
  // Invariant
  // ---------------------------------------------------------------------------

  predicate Holds(name: Option<Tree>, tree: Tree) {
    name == Some(tree)
  }

  /** The live tree is proven, or the deadman is armed and will put a proven one back. */
  predicate Safe(s: State) {
    || (s.live.Some? && s.live.value in s.proven)
    || (s.timer && s.aside.Some? && s.aside.value in s.proven)
  }

  /** The original tree is under exactly one of its two names. */
  predicate OriginalInOnePlace(s: State) {
    Holds(s.live, s.original) != Holds(s.aside, s.original)
  }

  predicate Persistent(s: State) {
    && Safe(s) && s.original in s.proven
    && (s.timer ==> s.pending && (Holds(s.live, s.original) || Holds(s.aside, s.original)))
    && (!s.pending ==> s.aside.None?)
    && (s.aside.Some? ==> Holds(s.aside, s.original))
    && (s.live.Some? ==> s.live.value in {s.original, s.candidate})
    && (s.live.None? ==> s.aside.Some?)
    && (s.candidate !in s.proven ==> OriginalInOnePlace(s))
  }

  predicate ArmState(s: State) {
    match s.arm
    case Idle => s.live.Some?
    case WriteState => !s.pending && Holds(s.live, s.original) && Holds(s.staged, s.candidate)
    case ArmTimer => s.pending && !s.timer && s.aside.None? && Holds(s.live, s.original) && Holds(s.staged, s.candidate)
    case RenameLive => s.timer && s.aside.None? && Holds(s.live, s.original) && Holds(s.staged, s.candidate)
    case RenameCandidate => s.timer && s.live.None? && Holds(s.staged, s.candidate)
    case Exit => s.timer && Holds(s.live, s.candidate)
    case UndoDisarm => s.timer && (if s.live.Some? then s.aside.None? else s.aside.Some?)
    case UndoUnlink => s.pending && !s.timer && s.aside.None?
  }

  predicate BootState(s: State) {
    match s.boot
    case Look => true
    case Probe => s.pending
    case Disarm => s.pending && s.live.Some? && s.live.value in s.proven
    case Reap => s.pending && !s.timer && s.live.Some? && s.live.value in s.proven
    case Unlink => s.pending && !s.timer && s.aside.None?
    case Resolved => true
  }

  /** Nothing is live, the original tree waits under its old name, and nothing but a hand
      from outside will bring it back. */
  predicate Stranded(s: State) {
    && s.stranded && s.live.None? && Holds(s.aside, s.original) && !s.timer
    && (s.alive ==> s.boot.Resolved? && (s.arm.UndoUnlink? || s.arm.Idle?))
  }

  predicate Inv(s: State) {
    if s.stranded then Stranded(s)
    else
      && Persistent(s)
      && (s.alive ==> ArmState(s) && BootState(s) && (!s.arm.Idle? ==> s.boot.Resolved? && s.candidate !in s.proven))
  }

  lemma ArmKeepsInv(s: State, ok: bool)
    requires Inv(s) && Enabled(s, ArmStep(ok))
    ensures Inv(AfterArm(s, ok))
  {
  }

  lemma BootKeepsInv(s: State, healthy: bool)
    requires Inv(s) && Enabled(s, BootStep(healthy))
    ensures Inv(AfterBoot(s, healthy))
  {
  }

  lemma StepKeepsInv(s: State, step: Step)
    requires Inv(s) && Enabled(s, step)
    ensures Inv(Do(s, step))
  {
    match step {
      case ArmStep(ok) => ArmKeepsInv(s, ok);
      case BootStep(healthy) => BootKeepsInv(s, healthy);
      case _ =>
    }
  }

  lemma ReachableInv(s: State)
    requires Reachable(s)
    ensures Inv(s)
  {
    var tree :| Reaches(Next, Init(tree), s);
    forall u, v | Inv(u) && Next(u, v) ensures Inv(v) {
      var step :| Enabled(u, step) && v == Do(u, step);
      StepKeepsInv(u, step);
    }
    InvariantReached(Next, Inv, Init(tree), s);
  }

  // ---------------------------------------------------------------------------
  // Safety
  // ---------------------------------------------------------------------------

  /** Through every crash, firing and boot, the original tree is under exactly one of its
      names until the candidate is proven, and while it is moved aside the deadman is
      armed: unless a second rename has failed. */
  lemma OriginalSurvives(s: State)
    requires Reachable(s) && !s.stranded
    ensures s.candidate !in s.proven ==> OriginalInOnePlace(s)
    ensures s.candidate !in s.proven && Holds(s.aside, s.original) ==> s.timer
    ensures s.original in s.proven && Safe(s)
  {
    ReachableInv(s);
  }

  /** The pending file is written before the timer is armed and unlinked after it is off, and
      the original tree is not reaped before that: an armed timer finds it under one of its
      names. */
  lemma ArmedIsRecorded(s: State)
    requires Reachable(s) && s.timer
    ensures s.pending && (Holds(s.live, s.original) || Holds(s.aside, s.original)) && s.original in s.proven
  {
    ReachableInv(s);
  }

  /** The exception: once a failed second rename has been unwound nothing is live, the
      original is under its old name, and no deadman will bring it back. */
  lemma FailedRenameStrands(s: State)
    requires Reachable(s) && !s.stranded && s.alive && s.arm.RenameCandidate?
    ensures var t := AfterArm(AfterArm(AfterArm(s, false), true), true);
      && t.arm.Idle? && t.stranded && !Safe(t)
      && t.live.None? && Holds(t.aside, t.original) && !t.timer && !t.pending
  {
    ReachableInv(s);
  }

  /** A crash after the failed rename, but before the disarm, is harmless: the deadman puts
      the original tree back. */
  lemma CrashBeforeDisarmIsHarmless(s: State)
    requires Reachable(s) && !s.stranded && s.alive && s.arm.RenameCandidate?
    ensures var t := AfterArm(s, false);
      && Enabled(t, Crash) && Enabled(Do(t, Crash), Fire)
      && Holds(Do(Do(t, Crash), Fire).live, s.original)
      && Safe(Do(Do(t, Crash), Fire)) && !Do(Do(t, Crash), Fire).stranded
  {
    ReachableInv(s);
  }

  /** A stranded host stays as it is: the original tree is kept aside, no swap or boot
      starts, and at most one statement and a crash are still to come. */
  lemma StrandedIsFinal(s: State)
    requires Reachable(s) && s.stranded
    ensures s.live.None? && Holds(s.aside, s.original) && !s.timer
    ensures forall step | Enabled(s, step) :: step.Crash? || (step.ArmStep? && s.arm.UndoUnlink?)
  {
    ReachableInv(s);
  }

  // ---------------------------------------------------------------------------
  // Why the boot task has to look first
  // ---------------------------------------------------------------------------

  ghost predicate PossibleNext(s: State, t: State) {
    exists step: Step :: Possible(s, step) && t == Do(s, step)
  }

  /** Were a swap started before the boot task has looked, the boot task would take its
      pending file for one to resolve: with the old tree still live its probe passes, it
      disarms the deadman and unlinks the file, and then the old tree is moved aside.
      After a crash nothing is live, and nothing can ever happen again. */
  lemma EarlyArmIsUnsafe(tree: Tree, candidate: Tree)
    requires tree != candidate
    ensures exists t ::
      && Reaches(PossibleNext, Init(tree), t) && !t.stranded && !Safe(t)
      && t.live.None? && Holds(t.aside, tree) && forall step :: !Possible(t, step)
  {
    var s0 := Init(tree);
    var armed := s0.(staged := Some(candidate), candidate := candidate, pending := true, timer := true,
                     arm := RenameLive);
    ReachesSelf(PossibleNext, s0);
    ReachesPossible(s0, s0, StartArm(candidate));
    var s1 := Do(s0, StartArm(candidate));
    ReachesPossible(s0, s1, ArmStep(true));
    var s2 := Do(s1, ArmStep(true));
    ReachesPossible(s0, s2, ArmStep(true));
    assert Do(s2, ArmStep(true)) == armed;
    BootTakesSwap(s0, armed, tree);
  }

  lemma ReachesPossible(s0: State, s: State, step: Step)
    requires Reaches(PossibleNext, s0, s) && Possible(s, step)
    ensures Reaches(PossibleNext, s0, Do(s, step))
  {
    ReachesStep(PossibleNext, s0, s, Do(s, step));
  }

  lemma BootTakesSwap(s0: State, armed: State, tree: Tree)
    requires Reaches(PossibleNext, s0, armed) && armed.alive && armed.boot.Look? && armed.arm.RenameLive?
    requires armed.pending && armed.timer && !armed.stranded && Holds(armed.live, tree)
    ensures exists t ::
      && Reaches(PossibleNext, s0, t) && !t.stranded && !Safe(t)
      && t.live.None? && Holds(t.aside, tree) && forall step :: !Possible(t, step)
  {
    var b := BootStep(true);
    ReachesPossible(s0, armed, b);
    var t1 := Do(armed, b);
    ReachesPossible(s0, t1, b);
    var t2 := Do(t1, b);
    ReachesPossible(s0, t2, b);
    var t3 := Do(t2, b);
    ReachesPossible(s0, t3, b);
    var t4 := Do(t3, b);
    ReachesPossible(s0, t4, b);
    var t5 := Do(t4, b);
    ReachesPossible(s0, t5, ArmStep(true));
    var t6 := Do(t5, ArmStep(true));
    ReachesPossible(s0, t6, Crash);
    var t7 := Do(t6, Crash);
    assert t7.live.None? && Holds(t7.aside, tree) && !t7.timer && !t7.alive;
  }

  // ---------------------------------------------------------------------------
  // Convergence
  // ---------------------------------------------------------------------------

  predicate Disturbs(step: Step) {
    step.Crash? || step.StartArm?
  }

  /** When only a new crash or a new swap can happen, a proven tree is live and the
      timer is off. */
  lemma QuietIsSettled(s: State)
    requires Reachable(s) && !s.stranded
    requires forall step | Enabled(s, step) :: Disturbs(step)
    ensures s.alive && !s.timer && s.live.Some? && s.live.value in s.proven
  {
    ReachableInv(s);
    assert !Enabled(s, Respawn) && !Enabled(s, Fire) && !Enabled(s, ArmStep(true));
    assert !Enabled(s, BootStep(true));
  }

  function BootRank(b: Boot): nat {
    match b
    case Look => 5
    case Probe => 4
    case Disarm => 3
    case Reap => 2
    case Unlink => 1
    case Resolved => 0
  }

  function ArmRank(a: Arm): nat {
    match a
    case Idle => 0
    case WriteState => 18
    case ArmTimer => 17
    case RenameLive => 9
    case RenameCandidate => 8
    case Exit => 7
    case UndoDisarm => 2
    case UndoUnlink => 1
  }

  /** How many steps are left if nothing disturbs them. */
  function Remaining(s: State): nat {
    (if s.timer then 7 else 0) + (if s.alive then BootRank(s.boot) + ArmRank(s.arm) else 6)
  }

  lemma StepProgress(s: State, step: Step)
    requires Inv(s) && Enabled(s, step)
    ensures if Disturbs(step) then Remaining(Do(s, step)) <= Remaining(s) + 18
            else Remaining(Do(s, step)) < Remaining(s)
  {
  }

  ghost predicate Labelled(states: seq<State>, steps: seq<Step>) {
    && |states| == |steps| + 1
    && forall i, j | 0 <= i < j < |states| && j == i + 1 ::
         Enabled(states[i], steps[i]) && states[j] == Do(states[i], steps[i])
  }

  /** How many of the first `n` steps of a run are disturbances. */
  function Disturbances(steps: seq<Step>, n: nat): nat
    requires n <= |steps|
  {
    if n == 0 then 0 else Disturbances(steps, n - 1) + if Disturbs(steps[n - 1]) then 1 else 0
  }

  /** The first `n` steps of a run with k crashes and new swaps number at most a constant
      plus 19 for each. With `QuietIsSettled` and `StrandedIsFinal`, a swap that is
      disturbed finitely often comes to rest, on a proven tree unless it is stranded. */
  lemma {:induction false} RunIsBounded(states: seq<State>, steps: seq<Step>, n: nat)
    requires Labelled(states, steps) && n <= |steps| && Reachable(states[0])
    ensures Reachable(states[n])
    ensures n + Remaining(states[n]) <= Remaining(states[0]) + 19 * Disturbances(steps, n)
  {
    hide Do, Possible, Enabled, Inv, Remaining;
    if n > 0 {
      RunIsBounded(states, steps, n - 1);
      var s, t := states[n - 1], states[n];
      assert Enabled(s, steps[n - 1]) && t == Do(s, steps[n - 1]);
      ReachableInv(s);
      StepProgress(s, steps[n - 1]);
      var tree :| Reaches(Next, Init(tree), s);
      ReachesStep(Next, Init(tree), s, t);
    }
  }

  // ---------------------------------------------------------------------------
  // The two operations
  // ---------------------------------------------------------------------------

  datatype ArmOutcome = Refused | ArmFailed | FirstRenameFailed | SecondRenameFailed | Exited

  datatype BootOutcome = NoPending | Committed | LivenessFailed

  /** The host. The ghost fields say which statement the process has reached. */
  class Host {
    var live: Option<Tree>
    var aside: Option<Tree>
    var staged: Option<Tree>
    var pending: bool
    var timer: bool
    ghost var rest: State

    ghost predicate Valid() reads this {
      && rest.live == live && rest.aside == aside && rest.staged == staged
      && rest.pending == pending && rest.timer == timer
    }

    /** The process has executed a statement that is this step of the machine. */
    ghost method Advance(origin: State, step: Step)
      requires Reaches(Next, origin, rest) && Enabled(rest, step)
      requires var t := Do(rest, step);
        t.live == live && t.aside == aside && t.staged == staged && t.pending == pending && t.timer == timer
      modifies this`rest
      ensures Valid() && rest == Do(old(rest), step) && Reaches(Next, origin, rest)
    {
      ReachesStep(Next, origin, rest, Do(rest, step));
      rest := Do(rest, step);
    }

    method Unwind(ghost origin: State)
      requires Valid() && rest.alive && rest.arm.UndoDisarm? && Reaches(Next, origin, rest)
      modifies this
      ensures Valid() && Reaches(Next, origin, rest)
      ensures rest == old(rest).(timer := false, pending := false, arm := Idle, stranded := live.None?)
    {
      timer := false;
      Advance(origin, ArmStep(true));
      pending := false;
      Advance(origin, ArmStep(true));
    }

    /** Arms the deadman, swaps the two trees by renames, exits. The flags say which
        of the commands succeed. */
    method ArmAndSwap(candidate: Tree, armOk: bool, firstOk: bool, secondOk: bool) returns (outcome: ArmOutcome)
      requires Valid() && rest.alive && rest.boot.Resolved? && rest.arm.Idle?
      requires live.Some? && candidate !in rest.proven && (!pending ==> !timer)
      modifies this
      ensures Valid() && Reaches(Next, old(rest), rest)
      ensures outcome ==
        if old(pending) then Refused else if !armOk then ArmFailed
        else if !firstOk then FirstRenameFailed else if !secondOk then SecondRenameFailed else Exited
      ensures outcome.Refused? || outcome.ArmFailed? || outcome.FirstRenameFailed? ==>
        live == old(live) && aside == old(aside) && pending == old(pending) && timer == old(timer)
      ensures outcome.SecondRenameFailed? ==> live.None? && aside == old(live) && !pending && !timer
      ensures outcome.Exited? ==> live == Some(candidate) && aside == old(live) && pending && timer && !rest.alive
    {
      ghost var origin := rest;
      ReachesSelf(Next, origin);
      if pending {
        return Refused;
      }
      staged := Some(candidate);
      Advance(origin, StartArm(candidate));
      pending := true;
      Advance(origin, ArmStep(true));
      if !armOk {
        Advance(origin, ArmStep(false));
        pending := false;
        Advance(origin, ArmStep(true));
        return ArmFailed;
      }
      timer := true;
      Advance(origin, ArmStep(true));
      outcome := Swap(origin, firstOk, secondOk);
    }

    method Swap(ghost origin: State, firstOk: bool, secondOk: bool) returns (outcome: ArmOutcome)
      requires Valid() && rest.alive && rest.arm.RenameLive? && Reaches(Next, origin, rest)
      modifies this
      ensures Valid() && Reaches(Next, origin, rest)
      ensures outcome == if !firstOk then FirstRenameFailed else if !secondOk then SecondRenameFailed else Exited
      ensures !firstOk ==>
        rest == old(rest).(timer := false, pending := false, arm := Idle, stranded := live.None?)
      ensures firstOk && !secondOk ==> live.None? && aside == old(live) && !pending && !timer
      ensures firstOk && secondOk ==>
        live == old(staged) && aside == old(live) && pending == old(pending) && timer == old(timer) && !rest.alive
    {
      if !firstOk {
        Advance(origin, ArmStep(false));
        Unwind(origin);
        return FirstRenameFailed;
      }
      aside, live := live, None;
      Advance(origin, ArmStep(true));
      if !secondOk {
        Advance(origin, ArmStep(false));
        Unwind(origin);
        return SecondRenameFailed;
      }
      live, staged := staged, None;
      Advance(origin, ArmStep(true));
      Advance(origin, ArmStep(true));
      return Exited;
    }

    /** Resolves a pending swap at boot. */
    method BootCommit(healthy: bool) returns (outcome: BootOutcome)
      requires Valid() && rest.alive && rest.boot.Look? && live.Some?
      modifies this
      ensures Valid() && Reaches(Next, old(rest), rest) && live == old(live)
      ensures outcome == if !old(pending) then NoPending else if healthy then Committed else LivenessFailed
      ensures outcome.Committed? ==> !pending && !timer && aside.None? && live.value in rest.proven
      ensures !outcome.Committed? ==> pending == old(pending) && timer == old(timer) && aside == old(aside)
    {
      ghost var origin := rest;
      ReachesSelf(Next, origin);
      Advance(origin, BootStep(healthy));
      if !pending {
        return NoPending;
      }
      Advance(origin, BootStep(healthy));
      if !healthy {
        return LivenessFailed;
      }
      timer := false;
      Advance(origin, BootStep(healthy));
      aside := None;
      Advance(origin, BootStep(healthy));
      pending := false;
      Advance(origin, BootStep(healthy));
      return Committed;
    }
  }
}

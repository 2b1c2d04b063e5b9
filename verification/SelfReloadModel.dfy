/** Self-reload as a state machine: what persists across a crash (HEAD, the pending
    file, the deadman timer), the statements of the process that arms and swaps, those
    of the boot task that resolves a pending reload, and an environment that may kill
    the process between any two of them, respawn it, or fire the timer. */
module SelfReloadModel {
  import opened Options
  import opened Runs

  type Sha = string

  datatype Record = Record(oldSha: Sha, newSha: Sha, armedAt: real)

  /** An armed deadman reverts HEAD to a commit and restarts the service. */
  datatype Timer = Off | Armed(revertTo: Sha)

  /** Where the boot task is: each value names the statement it will execute next. */
  datatype Boot =
    | Look
    | ReadHead(record: Record)
    | Probe(record: Record)
    | DisarmThenUnlink(record: Record)
    | Unlink(record: Record)
    | Resolved

  /** Where a call of `arm_and_swap` is. */
  datatype Arm =
    | Idle
    | WriteState(record: Record)
    | ArmTimer(record: Record)
    | Reset(record: Record)
    | Exit(record: Record)
    | UndoDisarm(record: Record)
    | UndoUnlink(record: Record)

  /** `loaded` is the commit the running process was started from. `proven` is the
      history of the liveness oracle: the commits that have passed a probe, at first
      the commit the machine starts with. */
  datatype State = State(
    head: Sha,
    pending: Option<Record>,
    timer: Timer,
    alive: bool,
    loaded: Sha,
    boot: Boot,
    arm: Arm,
    proven: set<Sha>)

  function Init(sha: Sha): State {
    State(sha, None, Off, true, sha, Look, Idle, {sha})
  }

  datatype Step =
    | StartArm(newSha: Sha, now: real)
    | ArmStep(ok: bool)
    | BootStep(probe: bool)
    | GiveUp
    | Crash
    | Respawn
    | Fire

  predicate Possible(s: State, step: Step) {
    match step
    case StartArm(_, _) => s.alive && s.arm.Idle? && s.pending.None?
    case ArmStep(_) => s.alive && !s.arm.Idle?
    case BootStep(_) => s.alive && !s.boot.Resolved?
    case GiveUp => s.alive && s.boot.Probe?
    case Crash => s.alive
    case Respawn => !s.alive
    case Fire => s.timer.Armed?
  }

  /** The calls of `arm_and_swap` come after the boot task has looked for a pending file. */
  predicate Enabled(s: State, step: Step) {
    Possible(s, step) && (step.StartArm? ==> !s.boot.Look?)
  }

  /** The next statement of `arm_and_swap`; `ok` says whether it succeeds. */
  function AfterArm(s: State, ok: bool): State {
    match s.arm
    case Idle => s
    case WriteState(record) => s.(pending := Some(record), arm := ArmTimer(record))
    case ArmTimer(record) =>
      if ok then s.(timer := Armed(record.oldSha), arm := Reset(record)) else s.(arm := UndoUnlink(record))
    case Reset(record) =>
      if ok then s.(head := record.newSha, arm := Exit(record)) else s.(arm := UndoDisarm(record))
    case Exit(_) => s.(alive := false)
    case UndoDisarm(record) => s.(timer := Off, arm := UndoUnlink(record))
    case UndoUnlink(_) => s.(pending := None, arm := Idle)
  }

  /** The next statement of `boot_liveness_commit`; `probe` is what a probe finds. */
  function AfterBoot(s: State, probe: bool): State {
    match s.boot
    case Look => if s.pending.None? then s.(boot := Resolved) else s.(boot := ReadHead(s.pending.value))
    case ReadHead(record) =>
      if s.head == record.oldSha then s.(boot := DisarmThenUnlink(record))
      else if s.head != record.newSha then s.(boot := Resolved)
      else s.(boot := Probe(record))
    case Probe(record) =>
      if probe then s.(boot := DisarmThenUnlink(record), proven := s.proven + {s.loaded}) else s
    case DisarmThenUnlink(record) => s.(timer := Off, boot := Unlink(record))
    case Unlink(_) => s.(pending := None, boot := Resolved)
    case Resolved => s
  }

  function Do(s: State, step: Step): State {
    match step
    case StartArm(newSha, now) => s.(arm := WriteState(Record(s.head, newSha, now)))
    case ArmStep(ok) => AfterArm(s, ok)
    case BootStep(probe) => AfterBoot(s, probe)
    case GiveUp => s.(boot := Resolved)
    case Crash => s.(alive := false)
    case Respawn => s.(alive := true, loaded := s.head, boot := Look, arm := Idle)
    case Fire => if s.timer.Armed? then s.(head := s.timer.revertTo, timer := Off, alive := false) else s
  }

  ghost predicate Next(s: State, t: State) {
    exists step: Step :: Enabled(s, step) && t == Do(s, step)
  }

  ghost predicate Reachable(s: State) {
    exists sha :: Reaches(Next, Init(sha), s)
  }

  // ---------------------------------------------------------------------------
  // Invariant
  // ---------------------------------------------------------------------------

  /** HEAD has been seen to serve, or the deadman is armed to go back to a commit that has. */
  predicate Safe(s: State) {
    s.head in s.proven || (s.timer.Armed? && s.timer.revertTo in s.proven)
  }

  /** What the persistent state looks like, whoever is running. */
  predicate Persistent(s: State) {
    && Safe(s)
    && (s.timer.Armed? ==>
          s.pending.Some? && s.timer.revertTo == s.pending.value.oldSha && s.timer.revertTo in s.proven)
    && (s.pending.Some? ==> s.head in {s.pending.value.oldSha, s.pending.value.newSha})
  }

  predicate ArmState(s: State) {
    match s.arm
    case Idle => true
    case WriteState(record) => s.pending.None? && s.head == record.oldSha
    case ArmTimer(record) => s.pending == Some(record) && s.head == record.oldSha && s.timer.Off?
    case Reset(record) => s.pending == Some(record) && s.head == record.oldSha && s.timer.Armed?
    case Exit(record) => s.pending == Some(record) && s.head == record.newSha && s.timer.Armed?
    case UndoDisarm(record) => s.pending == Some(record) && s.head == record.oldSha
    case UndoUnlink(record) => s.pending == Some(record) && s.head == record.oldSha && s.timer.Off?
  }

  predicate BootState(s: State) {
    match s.boot
    case Look => true
    case ReadHead(record) => s.pending == Some(record)
    case Probe(record) => s.pending == Some(record) && s.head == record.newSha
    case DisarmThenUnlink(record) => s.pending == Some(record) && s.head in s.proven
    case Unlink(record) => s.pending == Some(record) && s.head in s.proven && s.timer.Off?
    case Resolved => s.arm.Idle? && s.pending.Some? ==> s.head == s.pending.value.newSha
  }

  predicate Inv(s: State) {
    && Persistent(s)
    && (s.alive ==>
          && ArmState(s) && BootState(s)
          && (!s.arm.Idle? ==> s.boot.Resolved?)
          && (!s.arm.Exit? ==> s.loaded == s.head))
  }

  lemma ArmKeepsInv(s: State, ok: bool)
    requires Inv(s) && Enabled(s, ArmStep(ok))
    ensures Inv(AfterArm(s, ok))
  {
  }

  lemma BootKeepsInv(s: State, probe: bool)
    requires Inv(s) && Enabled(s, BootStep(probe))
    ensures Inv(AfterBoot(s, probe))
  {
  }

  lemma StepKeepsInv(s: State, step: Step)
    requires Inv(s) && Enabled(s, step)
    ensures Inv(Do(s, step))
  {
    match step {
      case ArmStep(ok) => ArmKeepsInv(s, ok);
      case BootStep(probe) => BootKeepsInv(s, probe);
      case _ =>
    }
  }

  lemma ReachableInv(s: State)
    requires Reachable(s)
    ensures Inv(s)
  {
    var sha :| Reaches(Next, Init(sha), s);
    forall u, v | Inv(u) && Next(u, v) ensures Inv(v) {
      var step :| Enabled(u, step) && v == Do(u, step);
      StepKeepsInv(u, step);
    }
    InvariantReached(Next, Inv, Init(sha), s);
  }

  // ---------------------------------------------------------------------------
  // Safety
  // ---------------------------------------------------------------------------

  /** In every reachable state an unproven HEAD is covered: the deadman is armed to go
      back to a proven commit, and the pending file names both. */
  lemma UnprovenIsCovered(s: State)
    requires Reachable(s) && s.head !in s.proven
    ensures s.timer.Armed? && s.timer.revertTo in s.proven
    ensures s.pending.Some? && s.pending.value.oldSha == s.timer.revertTo && s.pending.value.newSha == s.head
  {
    ReachableInv(s);
  }

  /** The pending file is written before the timer is armed and unlinked after it is off:
      an armed timer always has its record, and would revert to a proven commit. */
  lemma ArmedIsRecorded(s: State)
    requires Reachable(s) && s.timer.Armed?
    ensures s.pending.Some? && s.timer.revertTo == s.pending.value.oldSha && s.timer.revertTo in s.proven
    ensures s.head in {s.pending.value.oldSha, s.pending.value.newSha}
  {
    ReachableInv(s);
  }

  /** Only a process running the new commit can commit it, and only a reload that is
      pending can be resolved: the deadman that a boot task disarms is its own. */
  lemma BootResolvesItsOwn(s: State, probe: bool)
    requires Reachable(s) && Enabled(s, BootStep(probe))
    ensures s.boot.Probe? ==> s.loaded == s.head == s.boot.record.newSha
    ensures Do(s, BootStep(probe)).timer != s.timer ==>
      && s.pending == Some(s.boot.record)
      && s.timer == Armed(s.boot.record.oldSha)
      && s.head in s.proven
  {
    ReachableInv(s);
  }

  /** While a reload is unresolved another one is refused, so no two share the timer. */
  lemma SingleFlight(s: State, newSha: Sha, now: real)
    requires Reachable(s) && Enabled(s, StartArm(newSha, now))
    ensures s.timer.Off? && s.boot.Resolved? && s.head in s.proven
  {
    ReachableInv(s);
  }

  /** HEAD is never at a third commit, so the boot task's branch for that case is dead. */
  lemma HeadMatchesRecord(s: State)
    requires Reachable(s) && s.alive && s.boot.ReadHead?
    ensures s.head in {s.boot.record.oldSha, s.boot.record.newSha}
  {
    ReachableInv(s);
  }

  // ---------------------------------------------------------------------------
  // Why the boot task has to look first
  // ---------------------------------------------------------------------------

  ghost predicate RunsTo(s: State, steps: seq<Step>, t: State)
    decreases |steps|
  {
    if steps == [] then s == t
    else
      var n := |steps| - 1;
      exists u :: RunsTo(s, steps[..n], u) && Possible(u, steps[n]) && t == Do(u, steps[n])
  }

  lemma {:induction false} RunsOn(s: State, steps: seq<Step>, u: State, step: Step)
    requires RunsTo(s, steps, u) && Possible(u, step)
    ensures RunsTo(s, steps + [step], Do(u, step))
  {
    assert (steps + [step])[..|steps|] == steps;
  }

  /** Were a reload armed before the boot task has looked, the boot task would take its
      pending file for one that was already reverted: it disarms the deadman and unlinks
      the file just before HEAD is reset, and an unproven commit is left uncovered. */
  lemma {:induction false} EarlyArmIsUnsafe(oldSha: Sha, newSha: Sha)
    requires oldSha != newSha
    ensures exists steps, t :: RunsTo(Init(oldSha), steps, t) && t.head == newSha && !Safe(t) && t.pending.None?
  {
    var r := Record(oldSha, newSha, 0.0);
    var s0 := Init(oldSha);
    var armed := s0.(pending := Some(r), timer := Armed(oldSha), arm := Reset(r));
    RunsOn(s0, [], s0, StartArm(newSha, 0.0));
    var s1 := Do(s0, StartArm(newSha, 0.0));
    var p1 := [] + [StartArm(newSha, 0.0)];
    RunsOn(s0, p1, s1, ArmStep(true));
    var s2 := Do(s1, ArmStep(true));
    RunsOn(s0, p1 + [ArmStep(true)], s2, ArmStep(true));
    var p3 := p1 + [ArmStep(true)] + [ArmStep(true)];
    assert Do(s2, ArmStep(true)) == armed;
    BootTakesIt(s0, p3, armed, r);
  }

  lemma {:induction false} BootTakesIt(s0: State, p: seq<Step>, armed: State, r: Record)
    requires RunsTo(s0, p, armed) && r.oldSha != r.newSha && armed.head == r.oldSha && armed.proven == {r.oldSha}
    requires armed.alive && armed.boot.Look? && armed.pending == Some(r) && armed.arm == Reset(r)
    ensures exists steps, t :: RunsTo(s0, steps, t) && t.head == r.newSha && !Safe(t) && t.pending.None?
  {
    var b := BootStep(false);
    RunsOn(s0, p, armed, b);
    var t1 := Do(armed, b);
    RunsOn(s0, p + [b], t1, b);
    var t2 := Do(t1, b);
    BootDiscardsIt(s0, p + [b] + [b], t2, r);
  }

  lemma BootDiscardsIt(s0: State, p: seq<Step>, s: State, r: Record)
    requires RunsTo(s0, p, s) && r.oldSha != r.newSha && s.proven == {r.oldSha}
    requires s.alive && s.boot == DisarmThenUnlink(r) && s.arm == Reset(r)
    ensures exists steps, t :: RunsTo(s0, steps, t) && t.head == r.newSha && !Safe(t) && t.pending.None?
  {
    var b := BootStep(false);
    RunsOn(s0, p, s, b);
    var t1 := Do(s, b);
    RunsOn(s0, p + [b], t1, b);
    var t2 := Do(t1, b);
    RunsOn(s0, p + [b] + [b], t2, ArmStep(true));
    var t3 := Do(t2, ArmStep(true));
    assert t3.head == r.newSha && !Safe(t3) && t3.pending.None?;
  }

  // ---------------------------------------------------------------------------
  // Convergence
  // ---------------------------------------------------------------------------

  /** Crashes, new reloads and probes that fail and are tried again. */
  predicate Disturbs(s: State, step: Step) {
    step.Crash? || step.StartArm? || (step.BootStep? && s.boot.Probe? && !step.probe)
  }

  ghost predicate Quiet(s: State) {
    forall step | Enabled(s, step) :: Disturbs(s, step)
  }

  /** When nothing but a new crash or a new reload can happen, the machine runs a proven
      commit with the timer off: a reverted or unwound reload has left no pending file,
      and a file that is left belongs to a reload whose commit is proven. */
  lemma QuietIsSettled(s: State)
    requires Reachable(s) && Quiet(s)
    ensures s.alive && s.timer.Off? && s.head in s.proven
    ensures s.pending.None? || s.pending.value.newSha == s.head
  {
    ReachableInv(s);
    assert !Enabled(s, Respawn) && !Enabled(s, Fire) && !Enabled(s, ArmStep(true));
    assert !Enabled(s, BootStep(true)) && !Enabled(s, GiveUp);
  }

  function BootRank(b: Boot): nat {
    match b
    case Look => 6
    case ReadHead(_) => 5
    case Probe(_) => 4
    case DisarmThenUnlink(_) => 2
    case Unlink(_) => 1
    case Resolved => 0
  }

  function ArmRank(a: Arm): nat {
    match a
    case Idle => 0
    case WriteState(_) => 19
    case ArmTimer(_) => 18
    case Reset(_) => 9
    case Exit(_) => 8
    case UndoDisarm(_) => 2
    case UndoUnlink(_) => 1
  }

  /** How many steps are left if nothing disturbs them. */
  function Remaining(s: State): nat {
    (if s.timer.Armed? then 8 else 0) + (if s.alive then BootRank(s.boot) + ArmRank(s.arm) else 7)
  }

  lemma StepProgress(s: State, step: Step)
    requires Inv(s) && Enabled(s, step)
    ensures if Disturbs(s, step) then Remaining(Do(s, step)) <= Remaining(s) + 19
            else Remaining(Do(s, step)) < Remaining(s)
  {
  }

  ghost predicate Labelled(states: seq<State>, steps: seq<Step>) {
    && |states| == |steps| + 1
    && forall i, j | 0 <= i < j < |states| && j == i + 1 ::
         Enabled(states[i], steps[i]) && states[j] == Do(states[i], steps[i])
  }

  /** How many of the first `n` steps of a run are disturbances. */
  ghost function Disturbances(states: seq<State>, steps: seq<Step>, n: nat): nat
    requires |states| == |steps| + 1 && n <= |steps|
  {
    if n == 0 then 0
    else Disturbances(states, steps, n - 1) + if Disturbs(states[n - 1], steps[n - 1]) then 1 else 0
  }

  /** Between disturbances only boundedly much can happen: the first `n` steps of a run
      with k of them number at most a constant plus 20 for each. With `QuietIsSettled`,
      a reload that is disturbed finitely often comes to rest on a proven commit. */
  lemma {:induction false} RunIsBounded(states: seq<State>, steps: seq<Step>, n: nat)
    requires Labelled(states, steps) && n <= |steps| && Reachable(states[0])
    ensures Reachable(states[n])
    ensures n + Remaining(states[n]) <= Remaining(states[0]) + 20 * Disturbances(states, steps, n)
  {
    hide Do, Possible, Enabled, Inv, Remaining;
    if n > 0 {
      RunIsBounded(states, steps, n - 1);
      var s, t := states[n - 1], states[n];
      assert Enabled(s, steps[n - 1]) && t == Do(s, steps[n - 1]);
      ReachableInv(s);
      StepProgress(s, steps[n - 1]);
      var sha :| Reaches(Next, Init(sha), s);
      ReachesStep(Next, Init(sha), s, t);
    }
  }
}

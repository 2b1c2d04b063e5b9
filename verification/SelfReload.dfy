/** `arm_and_swap` and `boot_liveness_commit` statement by statement. Each statement is
    one step of the self-reload machine; the probe loop is timed. */
module SelfReload {
  import opened Options
  import opened Runs
  import opened SelfReloadModel

  const DEADMAN_DELAY := 180.0
  const LIVENESS_MARGIN := 30.0
  const PROBE_INTERVAL := 2.0

  datatype ArmOutcome = Refused | ArmFailed | ResetFailed | Exited

  datatype BootOutcome = NoPending | Committed | Resurrected | LivenessFailed

  /** The probes of one boot: what the k-th finds, and how long it takes. */
  datatype Probes = Probes(passes: nat -> bool, takes: nat -> real)

  /** When the k-th probe ends, if the loop starts at `start` and gets that far. */
  function ProbeEnd(probes: Probes, start: real, k: nat): real {
    if k == 0 then start + probes.takes(0)
    else ProbeEnd(probes, start, k - 1) + PROBE_INTERVAL + probes.takes(k)
  }

  /** Some probe passes, and those before it all end before this time. */
  ghost predicate PassesInTime(probes: Probes, start: real, until: real) {
    exists k: nat :: probes.passes(k) && forall j: nat | j < k :: ProbeEnd(probes, start, j) < until
  }

  /** The loop reaches its k-th probe: the earlier ones failed, each before the deadline. */
  ghost predicate Probed(probes: Probes, start: real, deadline: real, k: nat) {
    forall j: nat | j < k :: !probes.passes(j) && ProbeEnd(probes, start, j) < deadline
  }

  /** The probe loop ends in bounded time, and commits exactly when a probe that it
      reaches passes. */
  method AwaitLiveness(probes: Probes, start: real, deadline: real) returns (passed: bool, last: nat)
    requires forall k: nat :: probes.takes(k) >= 0.0
    ensures Probed(probes, start, deadline, last) && passed == probes.passes(last)
    ensures !passed ==> ProbeEnd(probes, start, last) >= deadline
    ensures passed <==> PassesInTime(probes, start, deadline)
    ensures last > 0 ==> 2.0 * (last - 1) as real < deadline - start
  {
    var k, clock := 0, start + probes.takes(0);
    while !probes.passes(k) && clock < deadline
      invariant clock == ProbeEnd(probes, start, k) && clock >= start + 2.0 * k as real
      invariant Probed(probes, start, deadline, k)
      invariant k > 0 ==> 2.0 * (k - 1) as real < deadline - start
      decreases if clock < deadline then ((deadline - clock) / 2.0).Floor + 1 else 0
    {
      k := k + 1;
      clock := clock + PROBE_INTERVAL + probes.takes(k);
    }
    if !probes.passes(k) {
      GaveUpRightly(probes, start, deadline, k);
    }
    return probes.passes(k), k;
  }

  lemma GaveUpRightly(probes: Probes, start: real, deadline: real, last: nat)
    requires Probed(probes, start, deadline, last) && !probes.passes(last)
    requires ProbeEnd(probes, start, last) >= deadline
    ensures !PassesInTime(probes, start, deadline)
  {
    forall k: nat | probes.passes(k) ensures exists j: nat :: j < k && ProbeEnd(probes, start, j) >= deadline {
      assert k > last;
    }
  }

  lemma {:induction false} SteadyProbeEnd(probes: Probes, start: real, d: real, k: nat)
    requires forall j: nat :: probes.takes(j) == d
    ensures ProbeEnd(probes, start, k) == start + d * (k + 1) as real + 2.0 * k as real
  {
    if k > 0 {
      SteadyProbeEnd(probes, start, d, k - 1);
    }
  }

  lemma {:induction false} ProbeEndGrows(probes: Probes, start: real, j: nat, k: nat)
    requires j <= k && forall i: nat :: probes.takes(i) >= 0.0
    ensures ProbeEnd(probes, start, j) <= ProbeEnd(probes, start, k)
  {
    if j < k {
      ProbeEndGrows(probes, start, j, k - 1);
    }
  }

  /** The first probe to pass is in time exactly if the one before it ends in time. */
  lemma FirstPassInTime(probes: Probes, start: real, until: real, k: nat)
    requires forall i: nat :: probes.takes(i) >= 0.0
    requires probes.passes(k) && forall j: nat | j < k :: !probes.passes(j)
    ensures PassesInTime(probes, start, until) <==> k == 0 || ProbeEnd(probes, start, k - 1) < until
  {
    if k > 0 {
      forall j: nat | j < k ensures ProbeEnd(probes, start, j) <= ProbeEnd(probes, start, k - 1) {
        ProbeEndGrows(probes, start, j, k - 1);
      }
    }
    if PassesInTime(probes, start, until) {
      var m: nat :| probes.passes(m) && forall j: nat | j < m :: ProbeEnd(probes, start, j) < until;
      assert m >= k;
    }
  }

  /** When every probe takes as long: exactly if it is the first, or the one before it, which
      ended two seconds before it began, was in time. */
  lemma SteadyProbesInTime(probes: Probes, start: real, until: real, d: real, k: nat)
    requires d >= 0.0 && forall j: nat :: probes.takes(j) == d
    requires probes.passes(k) && forall j: nat | j < k :: !probes.passes(j)
    ensures PassesInTime(probes, start, until) <==> k == 0 || start + d * k as real + 2.0 * (k - 1) as real < until
  {
    hide PassesInTime, ProbeEnd;
    FirstPassInTime(probes, start, until, k);
    if k > 0 {
      SteadyProbeEnd(probes, start, d, k - 1);
    }
  }

  /** A boot that starts in time and whose probes take at most `longest` decides to commit
      within an interval and a probe of its deadline: before the deadman fires, if a probe
      takes less than 28 seconds. */
  lemma CommitBeatsDeadman(probes: Probes, start: real, armedAt: real, last: nat, longest: real)
    requires forall k: nat :: 0.0 <= probes.takes(k) <= longest
    requires Probed(probes, start, armedAt + 150.0, last) && start < armedAt + 150.0
    ensures ProbeEnd(probes, start, last) < armedAt + 152.0 + longest
    ensures longest < 28.0 ==> ProbeEnd(probes, start, last) < armedAt + DEADMAN_DELAY
  {
    assert last > 0 ==> ProbeEnd(probes, start, last - 1) < armedAt + 150.0;
  }

  /** A boot that starts after its deadline still probes once, and commits if that passes,
      however late it is. */
  lemma LateBootProbesOnce(probes: Probes, start: real, deadline: real, last: nat)
    requires forall k: nat :: probes.takes(k) >= 0.0
    requires Probed(probes, start, deadline, last) && start >= deadline
    ensures last == 0
  {
    assert ProbeEnd(probes, start, 0) >= deadline;
  }

  /** The host. The ghost fields say which statement the process has reached. */
  class Host {
    var head: Sha
    var pending: Option<Record>
    var timer: Timer
    ghost var alive: bool
    ghost var loaded: Sha
    ghost var boot: Boot
    ghost var arm: Arm
    ghost var proven: set<Sha>

    ghost function View(): State reads this {
      State(head, pending, timer, alive, loaded, boot, arm, proven)
    }

    /** The process has executed a statement that is this step of the machine. */
    ghost method Advance(origin: State, s: State, step: Step)
      requires Reaches(Next, origin, s) && Enabled(s, step)
      requires Do(s, step).head == head && Do(s, step).pending == pending && Do(s, step).timer == timer
      modifies this`alive, this`loaded, this`boot, this`arm, this`proven
      ensures View() == Do(s, step) && Reaches(Next, origin, View())
    {
      var t := Do(s, step);
      alive, loaded, boot, arm, proven := t.alive, t.loaded, t.boot, t.arm, t.proven;
      ReachesStep(Next, origin, s, t);
    }

    /** Undoes a swap that was armed but not made: disarm, then unlink. */
    method Unwind(ghost origin: State, record: Record)
      requires alive && boot.Resolved? && arm == UndoDisarm(record) && Reaches(Next, origin, View())
      modifies this
      ensures Reaches(Next, origin, View())
      ensures View() == old(View()).(timer := Off, pending := None, arm := Idle)
    {
      ghost var s := View();
      timer := Off;
      Advance(origin, s, ArmStep(true));
      s := View();
      pending := None;
      Advance(origin, s, ArmStep(true));
    }

    /** Writes the state file and arms the deadman. */
    method ArmDeadman(ghost origin: State, record: Record, armOk: bool)
      requires alive && boot.Resolved? && arm == WriteState(record) && pending.None? && timer.Off?
      requires Reaches(Next, origin, View())
      modifies this
      ensures Reaches(Next, origin, View())
      ensures View() == if armOk
        then old(View()).(timer := Armed(record.oldSha), pending := Some(record), arm := Reset(record))
        else old(View()).(arm := Idle)
    {
      ghost var s := View();
      pending := Some(record);
      Advance(origin, s, ArmStep(true));
      s := View();
      if armOk {
        timer := Armed(record.oldSha);
        Advance(origin, s, ArmStep(true));
      } else {
        Advance(origin, s, ArmStep(false));
        s := View();
        pending := None;
        Advance(origin, s, ArmStep(true));
      }
    }

    /** Arms the deadman, swaps the source, exits. `armOk` and `resetOk` say whether the
        two commands succeed. */
    method ArmAndSwap(newSha: Sha, now: real, armOk: bool, resetOk: bool) returns (outcome: ArmOutcome)
      requires alive && boot.Resolved? && arm.Idle? && (pending.None? ==> timer.Off?)
      modifies this
      ensures Reaches(Next, old(View()), View())
      ensures outcome ==
        if old(pending).Some? then Refused else if !armOk then ArmFailed else if !resetOk then ResetFailed else Exited
      ensures outcome != Exited ==> View() == old(View())
      ensures outcome == Exited ==>
        && head == newSha && !alive
        && pending == Some(Record(old(head), newSha, now)) && timer == Armed(old(head))
    {
      ReachesSelf(Next, View());
      if pending.Some? {
        return Refused;
      }
      var record := Record(head, newSha, now);
      ghost var origin := View();
      Advance(origin, origin, StartArm(newSha, now));
      ArmDeadman(origin, record, armOk);
      if !armOk {
        return ArmFailed;
      }
      ghost var s := View();
      if !resetOk {
        Advance(origin, s, ArmStep(false));
        Unwind(origin, record);
        return ResetFailed;
      }
      head := newSha;
      Advance(origin, s, ArmStep(true));
      s := View();
      Advance(origin, s, ArmStep(true));
      return Exited;
    }

    /** Disarms the deadman, then unlinks the pending file. */
    method Resolve(ghost origin: State, record: Record)
      requires alive && boot == DisarmThenUnlink(record) && arm.Idle? && Reaches(Next, origin, View())
      modifies this
      ensures Reaches(Next, origin, View())
      ensures View() == old(View()).(timer := Off, pending := None, boot := Resolved)
    {
      ghost var s := View();
      timer := Off;
      Advance(origin, s, BootStep(true));
      s := View();
      pending := None;
      Advance(origin, s, BootStep(true));
    }

    /** Resolves a pending reload at boot. `last` is the last probe made, if any is. */
    method BootLivenessCommit(probes: Probes, start: real) returns (outcome: BootOutcome, ghost last: nat)
      requires alive && boot.Look? && arm.Idle? && loaded == head
      requires forall k: nat :: probes.takes(k) >= 0.0
      modifies this
      ensures Reaches(Next, old(View()), View()) && head == old(head)
      ensures outcome.NoPending? <==> old(pending).None?
      ensures outcome.Resurrected? <==> old(pending).Some? && old(head) == old(pending).value.oldSha
      ensures old(pending).Some? && old(head) != old(pending).value.oldSha ==>
        && (outcome.Committed? <==>
              && old(head) == old(pending).value.newSha
              && PassesInTime(probes, start, old(pending).value.armedAt + 150.0))
        && (outcome.LivenessFailed? <==> !outcome.Committed?)
      ensures outcome.Committed? ==> head in proven && probes.passes(last)
      ensures outcome.LivenessFailed? && old(head) == old(pending).value.newSha ==>
        && (forall k: nat | k <= last :: !probes.passes(k))
        && ProbeEnd(probes, start, last) >= old(pending).value.armedAt + 150.0
      ensures outcome.Committed? || outcome.LivenessFailed? ==>
        forall k: nat | k < last :: !probes.passes(k) && ProbeEnd(probes, start, k) < old(pending).value.armedAt + 150.0
      ensures if outcome.Resurrected? || outcome.Committed? then pending.None? && timer.Off?
        else pending == old(pending) && timer == old(timer)
    {
      last := 0;
      ghost var origin := View();
      ReachesSelf(Next, origin);
      Advance(origin, origin, BootStep(false));
      if pending.None? {
        return NoPending, 0;
      }
      var record := pending.value;
      ghost var s := View();
      Advance(origin, s, BootStep(false));
      if head == record.oldSha {
        Resolve(origin, record);
        return Resurrected, 0;
      }
      if head != record.newSha {
        return LivenessFailed, 0;
      }
      var passed;
      passed, last := AwaitLiveness(probes, start, record.armedAt + DEADMAN_DELAY - LIVENESS_MARGIN);
      s := View();
      if !passed {
        Advance(origin, s, GiveUp);
        return LivenessFailed, last;
      }
      Advance(origin, s, BootStep(true));
      Resolve(origin, record);
      return Committed, last;
    }
  }
}

/** Earned autonomy: the ladder a class of operations climbs, its closed form over whole
    histories, and the table that keeps one ladder for each key. */
module TrackRecord {
  import opened Options

  const GRADUATION_THRESHOLD: nat := 3

  datatype TrackState = TrackState(
    verifiedSuccesses: nat,
    graduated: bool,
    lastOutcome: Option<string>,
    lastFixBranch: Option<string>,
    lastFixSha: Option<string>,
    pendingSince: Option<int>)

  const UNTRUSTED := TrackState(0, false, None, None, None, None)

  /** What one scan cycle sees of a proposed fix. */
  datatype Cycle = Cycle(
    anomalyPresent: bool,
    branchMerged: bool,
    fixBranch: Option<string>,
    fixSha: Option<string>,
    now: int)

  function Advance(state: TrackState, c: Cycle): TrackState {
    if !c.branchMerged then
      state
    else if c.anomalyPresent then
      state.(pendingSince := None, lastOutcome := Some("merged_regressed"),
             lastFixBranch := c.fixBranch, lastFixSha := c.fixSha)
    else if state.pendingSince.None? || state.lastFixBranch != c.fixBranch then
      state.(pendingSince := Some(c.now), lastFixBranch := c.fixBranch, lastFixSha := c.fixSha,
             lastOutcome := Some("merged_pending_stability"))
    else
      var verified := state.verifiedSuccesses + 1;
      state.(verifiedSuccesses := verified,
             graduated := state.graduated || verified >= GRADUATION_THRESHOLD,
             pendingSince := None, lastOutcome := Some("merged_resolved"))
  }

  function AdvanceAll(cycles: seq<Cycle>): TrackState {
    if cycles == [] then UNTRUSTED
    else Advance(AdvanceAll(cycles[..|cycles| - 1]), cycles[|cycles| - 1])
  }

  // ---------------------------------------------------------------------------
  // Closed form
  // ---------------------------------------------------------------------------

  /** A merged fix is seen to have failed, or to hold. */
  datatype Observation = Regressed | Resolved(branch: Option<string>)

  /** The observations of a history; cycles before the merge are none. */
  function Observed(cycles: seq<Cycle>): seq<Observation> {
    if cycles == [] then []
    else
      var c := cycles[|cycles| - 1];
      Observed(cycles[..|cycles| - 1]) +
      (if !c.branchMerged then [] else if c.anomalyPresent then [Regressed] else [Resolved(c.fixBranch)])
  }

  /** The length of the longest prefix of equal observations. */
  function Span(h: seq<Observation>): (n: nat)
    requires h != []
    ensures 1 <= n <= |h|
  {
    if |h| > 1 && h[1] == h[0] then 1 + Span(h[1..]) else 1
  }

  /** The sum, over the maximal runs of observations that the same branch holds, of half
      the length of the run, rounded down. */
  function Halves(h: seq<Observation>): nat
    decreases |h|
  {
    if h == [] then 0
    else (if h[0].Resolved? then Span(h) / 2 else 0) + Halves(h[Span(h)..])
  }

  /** The length of the run of equal resolved observations at the end. */
  function Trailing(h: seq<Observation>): nat {
    var n := |h|;
    if n == 0 || h[n - 1].Regressed? then 0
    else if n > 1 && h[n - 2] == h[n - 1] then 1 + Trailing(h[..n - 1])
    else 1
  }

  lemma {:induction false} SpanAppend(h: seq<Observation>, o: Observation)
    requires h != []
    ensures Span(h + [o]) == (if Span(h) == |h| && o == h[0] then |h| + 1 else Span(h))
  {
    if |h| > 1 && h[1] == h[0] {
      assert (h + [o])[1..] == h[1..] + [o];
      SpanAppend(h[1..], o);
    } else if |h| > 1 {
      assert (h + [o])[1] == h[1];
    }
  }

  lemma {:induction false} SpanIsEqual(h: seq<Observation>, i: nat)
    requires h != [] && i < Span(h)
    ensures h[i] == h[0]
  {
    if i > 0 {
      SpanIsEqual(h[1..], i - 1);
    }
  }

  lemma {:induction false} SpanIsMaximal(h: seq<Observation>)
    requires h != [] && Span(h) < |h|
    ensures h[Span(h)] != h[0]
  {
    if |h| > 1 && h[1] == h[0] {
      SpanIsMaximal(h[1..]);
    }
  }

  /** A run that reaches the end of one piece is the run at the end of the whole when the
      piece before ends differently. */
  lemma {:induction false} TrailingOfTail(h: seq<Observation>, k: nat)
    requires 0 < k < |h| && h[k - 1] != h[k]
    ensures Trailing(h) == Trailing(h[k..])
  {
    var n := |h|;
    if h[n - 1].Resolved? && k < n - 1 && h[n - 2] == h[n - 1] {
      assert h[..n - 1][k..] == h[k..][..n - 1 - k];
      TrailingOfTail(h[..n - 1], k);
    }
  }

  lemma {:induction false} TrailingOfConstant(h: seq<Observation>)
    requires h != [] && h[0].Resolved? && forall i | 0 <= i < |h| :: h[i] == h[0]
    ensures Trailing(h) == |h|
  {
    if |h| > 1 {
      TrailingOfConstant(h[..|h| - 1]);
    }
  }

  /** One more observation adds a half run exactly when it completes a pair. */
  lemma {:induction false} HalvesAppend(h: seq<Observation>, o: Observation)
    ensures Halves(h + [o]) == Halves(h) +
      (if o.Resolved? && Trailing(h + [o]) % 2 == 0 then 1 else 0)
    decreases |h|
  {
    var all := h + [o];
    if h == [] {
      assert all[1..] == [];
    } else {
      SpanAppend(h, o);
      var k := Span(h);
      if k < |h| {
        SpanIsMaximal(h);
        SpanIsEqual(h, k - 1);
        assert all[k..] == h[k..] + [o];
        TrailingOfTail(all, k);
        HalvesAppend(h[k..], o);
      } else {
        WholeSpan(h, o);
      }
    }
  }

  lemma ConstantRun(h: seq<Observation>)
    requires h != [] && Span(h) == |h|
    ensures Halves(h) == (if h[0].Resolved? then |h| / 2 else 0)
    ensures h[0].Resolved? ==> Trailing(h) == |h|
    ensures h[|h| - 1] == h[0]
  {
    forall i | 0 <= i < |h| ensures h[i] == h[0] {
      SpanIsEqual(h, i);
    }
    assert h[|h|..] == [];
    if h[0].Resolved? {
      TrailingOfConstant(h);
    }
  }

  lemma NewRun(h: seq<Observation>, o: Observation)
    requires h != [] && Span(h) == |h| && o != h[0] && h[|h| - 1] == h[0]
    ensures Halves(h + [o]) == Halves(h) && (o.Resolved? ==> Trailing(h + [o]) == 1)
  {
    SpanAppend(h, o);
    assert (h + [o])[|h|..] == [o] && h[|h|..] == [] && [o][1..] == [];
  }

  lemma WholeSpan(h: seq<Observation>, o: Observation)
    requires h != [] && Span(h) == |h|
    ensures Halves(h + [o]) == Halves(h) +
      (if o.Resolved? && Trailing(h + [o]) % 2 == 0 then 1 else 0)
  {
    ConstantRun(h);
    if o == h[0] {
      SpanAppend(h, o);
      ConstantRun(h + [o]);
    } else {
      NewRun(h, o);
    }
  }

  /** How the ladder stands after these observations. */
  predicate StandsAt(s: TrackState, h: seq<Observation>) {
    && s.verifiedSuccesses == Halves(h)
    && (s.pendingSince.Some? <==> Trailing(h) % 2 == 1)
    && (s.pendingSince.Some? ==> h != [] && h[|h| - 1] == Resolved(s.lastFixBranch))
    && (s.graduated <==> Halves(h) >= GRADUATION_THRESHOLD)
  }

  lemma AdvanceStands(s: TrackState, h: seq<Observation>, c: Cycle)
    requires StandsAt(s, h) && c.branchMerged
    ensures StandsAt(Advance(s, c), h + [if c.anomalyPresent then Regressed else Resolved(c.fixBranch)])
  {
    var o := if c.anomalyPresent then Regressed else Resolved(c.fixBranch);
    HalvesAppend(h, o);
    assert (h + [o])[..|h|] == h;
  }

  /** Over any history of scan cycles, the successes are the half runs of the merged
      cycles, a stability window is open exactly while the last run is odd, and the class
      has graduated exactly when there are three. */
  lemma {:induction false} ClosedForm(cycles: seq<Cycle>)
    ensures StandsAt(AdvanceAll(cycles), Observed(cycles))
  {
    if cycles != [] {
      var before, c := cycles[..|cycles| - 1], cycles[|cycles| - 1];
      ClosedForm(before);
      if c.branchMerged {
        AdvanceStands(AdvanceAll(before), Observed(before), c);
      } else {
        assert Observed(cycles) == Observed(before);
      }
    }
  }

  /** The last cycle that saw the fix merged. */
  function LastMerged(cycles: seq<Cycle>): Option<Cycle> {
    var n := |cycles|;
    if n == 0 then None
    else if cycles[n - 1].branchMerged then Some(cycles[n - 1])
    else LastMerged(cycles[..n - 1])
  }

  /** What the ladder shows of that cycle: an open window began with it and is for its fix,
      and the last outcome says whether the fix failed, has yet to hold, or held. */
  lemma {:induction false} LastOutcomeShown(cycles: seq<Cycle>)
    ensures var t, last := AdvanceAll(cycles), LastMerged(cycles);
      if last.None? then t == UNTRUSTED
      else
        var c := last.value;
        && t.lastFixBranch == c.fixBranch
        && (c.anomalyPresent ==> t.pendingSince.None? && t.lastFixSha == c.fixSha)
        && (t.pendingSince.Some? ==> t.pendingSince == Some(c.now) && t.lastFixSha == c.fixSha)
        && t.lastOutcome ==
             Some(if c.anomalyPresent then "merged_regressed"
                  else if t.pendingSince.Some? then "merged_pending_stability" else "merged_resolved")
  {
    if cycles != [] {
      LastOutcomeShown(cycles[..|cycles| - 1]);
    }
  }

  /** No cycle takes back a success or a graduation. */
  lemma {:induction false} NeverReverts(cycles: seq<Cycle>, n: nat)
    requires n <= |cycles|
    ensures AdvanceAll(cycles[..n]).verifiedSuccesses <= AdvanceAll(cycles).verifiedSuccesses
    ensures AdvanceAll(cycles[..n]).graduated ==> AdvanceAll(cycles).graduated
  {
    if n < |cycles| {
      NeverReverts(cycles[..|cycles| - 1], n);
      assert cycles[..|cycles| - 1][..n] == cycles[..n];
    } else {
      assert cycles[..n] == cycles;
    }
  }

  function CountResolved(h: seq<Observation>): nat {
    if h == [] then 0 else CountResolved(h[..|h| - 1]) + if h[|h| - 1].Resolved? then 1 else 0
  }

  /** A half run takes two observations. */
  lemma {:induction false} TwoForEach(h: seq<Observation>)
    ensures 2 * Halves(h) + Trailing(h) % 2 <= CountResolved(h)
  {
    if h != [] {
      var before, o := h[..|h| - 1], h[|h| - 1];
      TwoForEach(before);
      assert h == before + [o];
      HalvesAppend(before, o);
    }
  }

  // ---------------------------------------------------------------------------
  // Operator outcomes
  // ---------------------------------------------------------------------------

  /** An operation has been verified or rolled back; there is no branch to tell apart. */
  datatype Outcome = Outcome(verified: bool, now: int)

  function AsCycle(o: Outcome): Cycle {
    Cycle(!o.verified, true, None, None, o.now)
  }

  function AsCycles(outcomes: seq<Outcome>): seq<Cycle> {
    seq(|outcomes|, i requires 0 <= i < |outcomes| => AsCycle(outcomes[i]))
  }

  function CountVerified(outcomes: seq<Outcome>): nat {
    if outcomes == [] then 0
    else CountVerified(outcomes[..|outcomes| - 1]) + if outcomes[|outcomes| - 1].verified then 1 else 0
  }

  lemma {:induction false} CountsAgree(outcomes: seq<Outcome>)
    ensures CountResolved(Observed(AsCycles(outcomes))) == CountVerified(outcomes)
  {
    if outcomes != [] {
      var before := outcomes[..|outcomes| - 1];
      assert AsCycles(outcomes)[..|outcomes| - 1] == AsCycles(before);
      CountsAgree(before);
      var h, h' := Observed(AsCycles(before)), Observed(AsCycles(outcomes));
      assert |h'| == |h| + 1 && h'[..|h|] == h;
    }
  }

  /** A graduated class has at least six verified operations behind it. */
  lemma GraduationTakesSix(outcomes: seq<Outcome>)
    ensures AdvanceAll(AsCycles(outcomes)).graduated ==> CountVerified(outcomes) >= 6
    ensures 2 * AdvanceAll(AsCycles(outcomes)).verifiedSuccesses <= CountVerified(outcomes)
  {
    ClosedForm(AsCycles(outcomes));
    TwoForEach(Observed(AsCycles(outcomes)));
    CountsAgree(outcomes);
  }

  // ---------------------------------------------------------------------------
  // The table
  // ---------------------------------------------------------------------------

  datatype Key = Key(userId: string, operationClass: string, target: string)

  /** A row keeps no branch. */
  datatype Row = Row(
    verifiedSuccesses: nat,
    graduated: bool,
    lastOutcome: Option<string>,
    lastTargetSha: Option<string>,
    pendingSince: Option<int>,
    updatedAt: int)

  /** What is read for a key: a class without a row is untrusted. */
  function Loaded(rows: map<Key, Row>, key: Key): TrackState {
    if key !in rows then UNTRUSTED
    else
      var r := rows[key];
      TrackState(r.verifiedSuccesses, r.graduated, r.lastOutcome, None, r.lastTargetSha, r.pendingSince)
  }

  class Store {
    var rows: map<Key, Row>

    constructor ()
      ensures rows == map[]
    {
      rows := map[];
    }

    method Get(key: Key) returns (state: TrackState)
      ensures state == Loaded(rows, key)
    {
      if key !in rows {
        return UNTRUSTED;
      }
      var r := rows[key];
      state := TrackState(r.verifiedSuccesses, r.graduated, r.lastOutcome, None, r.lastTargetSha, r.pendingSince);
    }

    /** Advances one ladder and no other, though the row is written only on a change and
        forgets the branch. */
    method Update(key: Key, outcome: Outcome) returns (state: TrackState)
      modifies this
      ensures state == Advance(old(Loaded(rows, key)), AsCycle(outcome)) == Loaded(rows, key)
      ensures forall other | other != key :: Loaded(rows, other) == old(Loaded(rows, other))
      ensures state == old(Loaded(rows, key)) ==> rows == old(rows)
      ensures state != old(Loaded(rows, key)) ==> key in rows && rows[key].updatedAt == outcome.now
    {
      var current := Get(key);
      state := Advance(current, AsCycle(outcome));
      if state == current {
        return;
      }
      rows := rows[key := Row(state.verifiedSuccesses, state.graduated, state.lastOutcome,
                              state.lastFixSha, state.pendingSince, outcome.now)];
    }

    /** After any run of updates, each key's ladder is where that key's own outcomes, taken
        alone, have brought it. */
    method UpdateAll(keys: seq<Key>, outcomes: seq<Outcome>)
      requires |keys| == |outcomes| && rows == map[]
      modifies this
      ensures forall key :: Loaded(rows, key) == AdvanceAll(AsCycles(OutcomesOf(keys, outcomes, key)))
    {
      var i := 0;
      while i < |keys|
        invariant 0 <= i <= |keys|
        invariant forall key ::
          Loaded(rows, key) == AdvanceAll(AsCycles(OutcomesOf(keys[..i], outcomes[..i], key)))
      {
        ghost var before := rows;
        var _ := Update(keys[i], outcomes[i]);
        forall key
          ensures Loaded(rows, key) == AdvanceAll(AsCycles(OutcomesOf(keys[..i + 1], outcomes[..i + 1], key)))
        {
          OneMoreOutcome(keys, outcomes, i, key);
          assert Loaded(before, key) == AdvanceAll(AsCycles(OutcomesOf(keys[..i], outcomes[..i], key)));
        }
        i := i + 1;
      }
      assert keys[..i] == keys && outcomes[..i] == outcomes;
    }
  }

  /** The outcomes recorded under one key, in order. */
  function OutcomesOf(keys: seq<Key>, outcomes: seq<Outcome>, key: Key): seq<Outcome>
    requires |keys| == |outcomes|
  {
    if keys == [] then []
    else
      var n := |keys| - 1;
      OutcomesOf(keys[..n], outcomes[..n], key) + if keys[n] == key then [outcomes[n]] else []
  }

  lemma AdvanceOneMore(outcomes: seq<Outcome>, o: Outcome)
    ensures AdvanceAll(AsCycles(outcomes + [o])) == Advance(AdvanceAll(AsCycles(outcomes)), AsCycle(o))
  {
    assert AsCycles(outcomes + [o])[..|outcomes|] == AsCycles(outcomes);
  }

  lemma OneMoreOutcome(keys: seq<Key>, outcomes: seq<Outcome>, i: nat, key: Key)
    requires i < |keys| == |outcomes|
    ensures var before := AdvanceAll(AsCycles(OutcomesOf(keys[..i], outcomes[..i], key)));
      AdvanceAll(AsCycles(OutcomesOf(keys[..i + 1], outcomes[..i + 1], key))) ==
      if keys[i] == key then Advance(before, AsCycle(outcomes[i])) else before
  {
    assert keys[..i + 1][..i] == keys[..i] && outcomes[..i + 1][..i] == outcomes[..i];
    var earlier := OutcomesOf(keys[..i], outcomes[..i], key);
    AdvanceOneMore(earlier, outcomes[i]);
    assert OutcomesOf(keys[..i + 1], outcomes[..i + 1], key) ==
      earlier + if keys[i] == key then [outcomes[i]] else [];
    assert earlier + [] == earlier;
  }
}

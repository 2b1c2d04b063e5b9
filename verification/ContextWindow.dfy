/** The message list of an agent run: assistant turns with their tool results, the cut
    that compression makes through them, and the rounds of a run. */
module ContextWindow {
  import opened Options
  import opened Text

  type CallId = string

  /** The content of a message: given text, the empty one when it is absent, or the text
      that a summary of messages is rendered to. */
  datatype Content = Text(text: string) | Summary(task: Content, dropped: nat, summary: string)

  function Rendered(content: Content): string {
    match content
    case Text(text) => text
    case Summary(task, dropped, summary) =>
      var origin := Rendered(task);
      (if origin == "" then "" else "[Original task: " + Truncated(origin, 400) + "]\n\n")
        + "[Compressed context: " + Decimal(dropped) + " earlier messages]\n" + summary
  }

  /** An assistant message names the tool calls it makes; a tool message answers one. */
  datatype Message =
    | System(content: Content)
    | User(content: Content)
    | Assistant(content: Content, calls: seq<CallId>)
    | Tool(content: Content, callId: CallId)

  const MAX_TOOL_ROUNDS: nat := 12
  const COMPRESS_THRESHOLD: nat := 18
  const KEEP_TURNS: nat := 4

  predicate InTurn(m: Message) {
    m.Assistant? || m.Tool?
  }

  /** From `i` on there are results of these calls, in order. */
  predicate AnswersAt(ms: seq<Message>, i: nat, calls: seq<CallId>) {
    && i + |calls| <= |ms|
    && forall j | i <= j < i + |calls| :: ms[j].Tool? && ms[j].callId == calls[j - i]
  }

  /** A tool result has another one or an assistant message before it; an assistant message
      has exactly the results of its calls after it. */
  predicate PlacedAt(ms: seq<Message>, i: nat)
    requires i < |ms|
  {
    match ms[i]
    case Tool(_, _) => 0 < i && InTurn(ms[i - 1])
    case Assistant(_, calls) =>
      AnswersAt(ms, i + 1, calls) && (i + 1 + |calls| < |ms| ==> !ms[i + 1 + |calls|].Tool?)
    case _ => true
  }

  /** Every assistant message is followed by exactly the results of its calls, in order,
      and there is no other tool message. */
  predicate WellFormed(ms: seq<Message>) {
    forall i | 0 <= i < |ms| :: PlacedAt(ms, i)
  }

  /** How many turns begin at `i` or later. */
  function Turns(ms: seq<Message>, i: nat): nat
    requires i <= |ms|
    decreases |ms| - i
  {
    if i == |ms| then 0 else (if ms[i].Assistant? then 1 else 0) + Turns(ms, i + 1)
  }

  predicate EndsWith(ms: seq<Message>, suffix: seq<Message>) {
    && |suffix| <= |ms|
    && forall i | 0 <= i < |suffix| :: suffix[i] == ms[|ms| - |suffix| + i]
  }

  // ---------------------------------------------------------------------------
  // Well-formed lists
  // ---------------------------------------------------------------------------

  lemma WellFormedConcat(a: seq<Message>, b: seq<Message>)
    requires WellFormed(a) && WellFormed(b)
    ensures WellFormed(a + b)
  {
    if b != [] {
      assert PlacedAt(b, 0);
    }
    forall i | 0 <= i < |a| + |b| ensures PlacedAt(a + b, i) {
      if i < |a| {
        assert PlacedAt(a, i);
      } else {
        assert PlacedAt(b, i - |a|);
        PlacedLater(a, b, i - |a|);
      }
    }
  }

  lemma AnswersLater(a: seq<Message>, b: seq<Message>, i: nat, calls: seq<CallId>)
    ensures AnswersAt(a + b, |a| + i, calls) <==> AnswersAt(b, i, calls)
  {
    assert forall j | i <= j < |b| :: b[j] == (a + b)[|a| + j];
    assert forall j | |a| + i <= j < |a| + |b| :: (a + b)[j] == b[j - |a|];
  }

  lemma PlacedLater(a: seq<Message>, b: seq<Message>, i: nat)
    requires i < |b|
    ensures PlacedAt(b, i) ==> PlacedAt(a + b, |a| + i)
    ensures PlacedAt(a + b, |a| + i) && (b[0].Tool? ==> 0 < i) ==> PlacedAt(b, i)
  {
    if b[i].Assistant? {
      AnswersLater(a, b, i + 1, b[i].calls);
    }
  }

  /** A well-formed list may be cut before any message that is not a tool result. */
  lemma WellFormedCut(ms: seq<Message>, i: nat)
    requires WellFormed(ms) && i <= |ms| && (i < |ms| ==> !ms[i].Tool?)
    ensures WellFormed(ms[..i]) && WellFormed(ms[i..])
  {
    WellFormedPrefix(ms, i);
    WellFormedSuffix(ms, i);
  }

  lemma WellFormedPrefix(ms: seq<Message>, i: nat)
    requires WellFormed(ms) && i <= |ms| && (i < |ms| ==> !ms[i].Tool?)
    ensures WellFormed(ms[..i])
  {
    forall k | 0 <= k < i ensures PlacedAt(ms[..i], k) {
      assert PlacedAt(ms, k);
    }
  }

  lemma WellFormedSuffix(ms: seq<Message>, i: nat)
    requires WellFormed(ms) && i <= |ms| && (i < |ms| ==> !ms[i].Tool?)
    ensures WellFormed(ms[i..])
  {
    assert ms[..i] + ms[i..] == ms;
    forall k | 0 <= k < |ms| - i ensures PlacedAt(ms[i..], k) {
      assert PlacedAt(ms, i + k);
      PlacedLater(ms[..i], ms[i..], k);
    }
  }

  lemma {:induction false} TurnsConcat(a: seq<Message>, b: seq<Message>, i: nat)
    requires i <= |a| + |b|
    ensures Turns(a + b, i) == if i <= |a| then Turns(a, i) + Turns(b, 0) else Turns(b, i - |a|)
    decreases |a| + |b| - i
  {
    if i < |a| + |b| {
      TurnsConcat(a, b, i + 1);
    }
  }

  lemma {:induction false} TurnsOfSuffix(ms: seq<Message>, suffix: seq<Message>, i: nat)
    requires EndsWith(ms, suffix) && i <= |suffix|
    ensures Turns(suffix, i) == Turns(ms, |ms| - |suffix| + i)
    decreases |suffix| - i
  {
    if i < |suffix| {
      TurnsOfSuffix(ms, suffix, i + 1);
    }
  }

  lemma {:induction false} TurnsBetween(ms: seq<Message>, i: nat, j: nat)
    requires i <= j <= |ms|
    ensures Turns(ms, i) >= Turns(ms, j) + if i < j && ms[i].Assistant? then 1 else 0
    decreases j - i
  {
    if i < j {
      TurnsBetween(ms, i + 1, j);
    }
  }

  // ---------------------------------------------------------------------------
  // Where to cut
  // ---------------------------------------------------------------------------

  /** From `t` on there are only turns, at most `keep` of them and as many as there are. */
  predicate IsTailStart(ms: seq<Message>, keep: nat, t: nat) {
    && t <= |ms|
    && (ms != [] ==> 0 < t)
    && (forall i | t <= i < |ms| :: InTurn(ms[i]))
    && Turns(ms, t) <= keep
    && (Turns(ms, t) == keep || t <= 1 || !InTurn(ms[t - 1]))
    && (1 < t < |ms| ==> ms[t].Assistant? || !InTurn(ms[t - 1]))
  }

  /** Back over tool results, but not to the anchor. */
  function BeforeTools(ms: seq<Message>, idx: nat): (j: nat)
    requires idx <= |ms|
    ensures j <= idx && (0 < idx ==> 0 < j)
  {
    if idx > 1 && ms[idx - 1].Tool? then BeforeTools(ms, idx - 1) else idx
  }

  /** Back over at most `keep` turns. */
  function TailFrom(ms: seq<Message>, keep: nat, idx: nat): (t: nat)
    requires idx <= |ms|
    ensures t <= idx
    decreases keep
  {
    if keep == 0 || idx <= 1 then idx
    else
      var j := BeforeTools(ms, idx);
      if j > 1 && ms[j - 1].Assistant? then TailFrom(ms, keep - 1, j - 1) else j
  }

  function TailStart(ms: seq<Message>, keep: nat): nat {
    TailFrom(ms, keep, |ms|)
  }

  lemma {:induction false} BeforeToolsSkips(ms: seq<Message>, idx: nat)
    requires idx <= |ms|
    ensures var j := BeforeTools(ms, idx);
      && (forall i | j <= i < idx :: ms[i].Tool?)
      && Turns(ms, j) == Turns(ms, idx)
      && (j > 1 ==> !ms[j - 1].Tool?)
  {
    if idx > 1 && ms[idx - 1].Tool? {
      BeforeToolsSkips(ms, idx - 1);
    }
  }

  lemma {:induction false} TailFromMeets(ms: seq<Message>, keep: nat, all: nat, idx: nat)
    requires idx <= |ms| && (ms != [] ==> 0 < idx)
    requires (forall i | idx <= i < |ms| :: InTurn(ms[i])) && (idx < |ms| ==> ms[idx].Assistant?)
    requires Turns(ms, idx) + keep == all
    ensures IsTailStart(ms, all, TailFrom(ms, keep, idx))
    decreases keep
  {
    if keep > 0 && idx > 1 {
      var j := BeforeTools(ms, idx);
      BeforeToolsSkips(ms, idx);
      if j > 1 && ms[j - 1].Assistant? {
        TailFromMeets(ms, keep - 1, all, j - 1);
      }
    }
  }

  /** The index that is found is the start of a tail. */
  lemma TailStartMeets(ms: seq<Message>, keep: nat)
    ensures IsTailStart(ms, keep, TailStart(ms, keep))
  {
    TailFromMeets(ms, keep, keep, |ms|);
  }

  method SafeTailStart(ms: seq<Message>, keep: nat) returns (idx: nat)
    ensures idx == TailStart(ms, keep) && IsTailStart(ms, keep, idx)
  {
    idx := |ms|;
    var turns := 0;
    while turns < keep && idx > 1
      invariant idx <= |ms| && turns <= keep
      invariant TailFrom(ms, keep - turns, idx) == TailStart(ms, keep)
      decreases keep - turns
    {
      ghost var from := idx;
      while idx > 1 && ms[idx - 1].Tool?
        invariant 0 < idx <= from && BeforeTools(ms, idx) == BeforeTools(ms, from)
      {
        idx := idx - 1;
      }
      if idx > 1 && ms[idx - 1].Assistant? {
        idx := idx - 1;
        turns := turns + 1;
      } else {
        break;
      }
    }
    TailStartMeets(ms, keep);
  }

  /** The last assistant message, -1 without one. */
  function LastAssistant(ms: seq<Message>): (a: int)
    ensures -1 <= a < |ms| && (0 <= a ==> ms[a].Assistant?)
    ensures forall i | a < i < |ms| :: !ms[i].Assistant?
  {
    if ms == [] then -1
    else if ms[|ms| - 1].Assistant? then |ms| - 1
    else LastAssistant(ms[..|ms| - 1])
  }

  /** The end of the tool results from here on. */
  function ToolsEnd(ms: seq<Message>, i: nat): (j: nat)
    requires i <= |ms|
    ensures i <= j <= |ms| && (forall k | i <= k < j :: ms[k].Tool?) && (j < |ms| ==> !ms[j].Tool?)
    decreases |ms| - i
  {
    if i < |ms| && ms[i].Tool? then ToolsEnd(ms, i + 1) else i
  }

  /** The end of the last assistant turn, 0 when there is none. */
  function LastCut(ms: seq<Message>): (cut: nat)
    ensures cut <= |ms| && (0 < cut <==> 0 <= LastAssistant(ms))
    ensures 0 < cut < |ms| ==> !ms[cut].Tool?
  {
    var a := LastAssistant(ms);
    if a < 0 then 0 else ToolsEnd(ms, a + 1)
  }

  /** The cut is right after the last assistant message and its tool results. */
  method SafeCompressCut(ms: seq<Message>) returns (lastSafe: nat)
    ensures lastSafe == LastCut(ms)
  {
    lastSafe := 0;
    var i := 0;
    ghost var last := -1;
    while i < |ms|
      invariant 0 <= i <= |ms| && -1 <= last < i && lastSafe <= i
      invariant 0 <= last ==> ms[last].Assistant? && lastSafe == ToolsEnd(ms, last + 1)
      invariant last < 0 ==> lastSafe == 0
      invariant forall k | last < k < i :: !ms[k].Assistant?
    {
      if ms[i].Assistant? {
        var j := i + 1;
        while j < |ms| && ms[j].Tool?
          invariant i < j <= |ms| && ToolsEnd(ms, j) == ToolsEnd(ms, i + 1)
        {
          j := j + 1;
        }
        last := i;
        lastSafe := j;
        i := j;
      } else {
        i := i + 1;
      }
    }
    assert last == LastAssistant(ms);
  }

  // ---------------------------------------------------------------------------
  // Compression
  // ---------------------------------------------------------------------------

  /** The list with the anchor and the next `cut` messages replaced by a summary. */
  function Replaced(ms: seq<Message>, cut: nat, summary: string): seq<Message>
    requires cut < |ms|
  {
    [User(Summary(ms[0].content, cut, summary))] + ms[1 + cut..]
  }

  /** How many messages compression takes after the anchor: the turns before the tail, and
      none when there is no summary or nothing to take. `summary` is the model's stripped
      answer, `None` when the call failed. */
  function CutOf(ms: seq<Message>, summary: Option<string>): (cut: nat)
    ensures 0 < cut ==> cut < TailStart(ms, KEEP_TURNS) <= |ms| && summary.Some?
  {
    var t := TailStart(ms, KEEP_TURNS);
    if |ms| <= 2 || t <= 1 || summary.None? || summary.value == "" then 0 else LastCut(ms[1..t])
  }

  function Compressed(ms: seq<Message>, summary: Option<string>): seq<Message> {
    var cut := CutOf(ms, summary);
    if cut == 0 then ms else Replaced(ms, cut, summary.value)
  }

  method Compress(ms: seq<Message>, summary: Option<string>) returns (result: seq<Message>, cut: nat)
    ensures result == Compressed(ms, summary) && cut == CutOf(ms, summary)
    ensures cut == 0 ==> result == ms
    ensures cut > 0 ==>
      summary.Some? && |result| == |ms| - cut && IsSummarized(ms, summary.value, result)
    ensures 2 < |ms| && summary.Some? && summary.value != "" ==> 0 < |result| && Turns(result, 1) <= 4
  {
    cut := 0;
    if |ms| <= 2 {
      return ms, 0;
    }
    var tailStart := SafeTailStart(ms, KEEP_TURNS);
    if summary.Some? && summary.value != "" {
      CompressionLeavesFour(ms, summary.value);
    }
    if tailStart <= 1 {
      return ms, 0;
    }
    var origin := ms[0];
    var compressible := ms[1..tailStart];
    var tail := ms[tailStart..];
    var c := SafeCompressCut(compressible);
    if c == 0 || summary.None? || summary.value == "" {
      return ms, 0;
    }
    cut := c;
    var keepMid := compressible[c..];
    result := [User(Summary(origin.content, c, summary.value))] + (keepMid + tail);
    Rejoined(ms, tailStart, c);
  }

  lemma Rejoined(ms: seq<Message>, t: nat, cut: nat)
    requires 1 + cut <= t <= |ms|
    ensures ms[1..t][cut..] + ms[t..] == ms[1 + cut..]
  {
  }

  /** After the messages that are taken there is no tool result, and they include a turn. */
  lemma CutIsBoundary(ms: seq<Message>, summary: Option<string>)
    requires WellFormed(ms) && 0 < CutOf(ms, summary)
    ensures var cut := CutOf(ms, summary);
      (1 + cut < |ms| ==> !ms[1 + cut].Tool?) && InTurn(ms[cut]) && exists a | 1 <= a <= cut :: ms[a].Assistant?
  {
    var t, cut := TailStart(ms, KEEP_TURNS), CutOf(ms, summary);
    var mid := ms[1..t];
    TailStartMeets(ms, KEEP_TURNS);
    assert ms[1 + LastAssistant(mid)] == mid[LastAssistant(mid)];
    assert ms[cut] == mid[cut - 1];
    assert cut < t - 1 ==> mid[cut] == ms[1 + cut];
    assert t < |ms| ==> PlacedAt(ms, t);
  }

  lemma AnchoredWellFormed(text: Content, ms: seq<Message>)
    requires WellFormed(ms)
    ensures WellFormed([User(text)] + ms)
  {
    WellFormedConcat([User(text)], ms);
  }

  /** Compressing a well-formed list leaves it well-formed: what goes is the anchor and
      whole turns, the last one at the end of what goes; what stays is kept verbatim, and the
      list is shorter by exactly the cut. Nothing is asked of the anchor. */
  lemma CompressionKeepsTurns(ms: seq<Message>, summary: Option<string>)
    requires WellFormed(ms)
    ensures var cut, result := CutOf(ms, summary), Compressed(ms, summary);
      && WellFormed(result) && |result| == |ms| - cut
      && (0 < cut ==>
            && WellFormed(ms[..1 + cut]) && InTurn(ms[cut]) && (exists a | 1 <= a <= cut :: ms[a].Assistant?)
            && (!InTurn(ms[0]) ==> WellFormed(ms[1..1 + cut]))
            && result[0].User? && result[1..] == ms[1 + cut..])
  {
    var cut := CutOf(ms, summary);
    if cut > 0 {
      CutIsBoundary(ms, summary);
      WellFormedCut(ms, 1 + cut);
      AnchoredWellFormed(Summary(ms[0].content, cut, summary.value), ms[1 + cut..]);
      if !InTurn(ms[0]) {
        assert PlacedAt(ms, 1) && ms[1] == ms[..1 + cut][1];
        WellFormedSuffix(ms[..1 + cut], 1);
        assert ms[..1 + cut][1..] == ms[1..1 + cut];
      }
    }
  }

  lemma {:induction false} NoTurnsBefore(ms: seq<Message>, i: nat, j: nat)
    requires i <= j <= |ms| && forall k | i <= k < j :: !ms[k].Assistant?
    ensures Turns(ms, i) == Turns(ms, j)
    decreases j - i
  {
    if i < j {
      NoTurnsBefore(ms, i + 1, j);
    }
  }

  /** What is left before the tail has no assistant message. */
  lemma NoneLeftBeforeTail(ms: seq<Message>, t: nat)
    requires 1 < t <= |ms|
    ensures var cut := LastCut(ms[1..t]); 1 + cut <= t && Turns(ms, 1 + cut) == Turns(ms, t)
  {
    var mid := ms[1..t];
    var cut := LastCut(mid);
    forall k | 1 + cut <= k < t ensures !ms[k].Assistant? {
      assert ms[k] == mid[k - 1];
    }
    NoTurnsBefore(ms, 1 + cut, t);
  }

  lemma TurnsReplaced(ms: seq<Message>, cut: nat, summary: string)
    requires cut < |ms|
    ensures Turns(Replaced(ms, cut, summary), 1) == Turns(ms, 1 + cut)
  {
    var rest := ms[1 + cut..];
    var result := Replaced(ms, cut, summary);
    TurnsOfSuffix(ms, rest, 0);
    TurnsOfSuffix(result, rest, 0);
  }

  /** With a summary, at most four turns are left after the anchor: compression takes every
      turn that it need not keep. */
  lemma CompressionLeavesFour(ms: seq<Message>, summary: string)
    requires 2 < |ms| && summary != ""
    ensures |Compressed(ms, Some(summary))| > 0 && Turns(Compressed(ms, Some(summary)), 1) <= 4
  {
    var t, cut := TailStart(ms, KEEP_TURNS), CutOf(ms, Some(summary));
    TailStartMeets(ms, KEEP_TURNS);
    hide TailStart, LastCut, Turns;
    if t > 1 {
      NoneLeftBeforeTail(ms, t);
      TurnsReplaced(ms, cut, summary);
    }
  }

  /** The last few turns of the list lie in its tail. */
  lemma RecentIsInTail(ms: seq<Message>, t: nat, recent: seq<Message>)
    requires 1 < t && IsTailStart(ms, KEEP_TURNS, t) && EndsWith(ms, recent) && recent != []
    requires IsTurns(recent, Turns(recent, 0)) && Turns(recent, 0) <= KEEP_TURNS
    ensures t + |recent| <= |ms|
  {
    var start := |ms| - |recent|;
    if start < t {
      assert recent[t - 1 - start] == ms[t - 1];
      assert recent[0] == ms[start];
      TurnsOfSuffix(ms, recent, 0);
      TurnsBetween(ms, start, t);
    }
  }

  lemma EndsWithReplaced(ms: seq<Message>, suffix: seq<Message>, anchor: Message, n: nat)
    requires EndsWith(ms, suffix) && n + |suffix| <= |ms|
    ensures EndsWith([anchor] + ms[n..], suffix)
  {
  }

  /** Up to four turns at the end of the list survive compression verbatim. */
  lemma CompressionKeepsRecent(ms: seq<Message>, summary: Option<string>, recent: seq<Message>)
    requires EndsWith(ms, recent) && IsTurns(recent, Turns(recent, 0)) && Turns(recent, 0) <= KEEP_TURNS
    ensures EndsWith(Compressed(ms, summary), recent)
  {
    var cut := CutOf(ms, summary);
    if cut > 0 {
      if recent != [] {
        TailStartMeets(ms, KEEP_TURNS);
        RecentIsInTail(ms, TailStart(ms, KEEP_TURNS), recent);
      }
      EndsWithReplaced(ms, recent, User(Summary(ms[0].content, cut, summary.value)), 1 + cut);
    }
  }

  // ---------------------------------------------------------------------------
  // A run
  // ---------------------------------------------------------------------------

  /** A tool call and what the tool answers. */
  datatype Call = Call(id: CallId, output: string)

  /** The model's answer in one round, with its text stripped. */
  datatype Reply = Failure | Answer(text: string, calls: seq<Call>)

  /** What the outside world does in one round. */
  datatype Round = Round(summary: Option<string>, reply: Reply)

  function Results(calls: seq<Call>): (r: seq<Message>)
    ensures |r| == |calls|
  {
    if calls == [] then []
    else
      var last := calls[|calls| - 1];
      Results(calls[..|calls| - 1]) + [Tool(Text(last.output), last.id)]
  }

  function Ids(calls: seq<Call>): (r: seq<CallId>)
    ensures |r| == |calls|
  {
    if calls == [] then [] else Ids(calls[..|calls| - 1]) + [calls[|calls| - 1].id]
  }

  lemma {:induction false} ResultsAnswer(calls: seq<Call>)
    ensures AnswersAt(Results(calls), 0, Ids(calls))
  {
    if calls != [] {
      ResultsAnswer(calls[..|calls| - 1]);
    }
  }

  /** The turn that a reply with tool calls adds. */
  function TurnOf(reply: Reply): seq<Message> {
    match reply
    case Failure => []
    case Answer(text, calls) => [Assistant(Text(text), Ids(calls))] + Results(calls)
  }

  predicate CallsTools(round: Round) {
    round.reply.Answer? && |round.reply.calls| > 0
  }

  predicate AllCallTools(rounds: seq<Round>, n: nat)
    requires n <= |rounds|
  {
    forall k | 0 <= k < n :: CallsTools(rounds[k])
  }

  /** The first round from `k` on in which the model calls no tools. */
  function CallsUntil(rounds: seq<Round>, k: nat): (n: nat)
    requires k <= |rounds|
    ensures k <= n <= |rounds| && (n < |rounds| ==> !CallsTools(rounds[n]))
    decreases |rounds| - k
  {
    if k < |rounds| && CallsTools(rounds[k]) then CallsUntil(rounds, k + 1) else k
  }

  lemma {:induction false} CallsUntilThen(rounds: seq<Round>, k: nat)
    requires k <= |rounds| && AllCallTools(rounds, k)
    ensures AllCallTools(rounds, CallsUntil(rounds, k))
    decreases |rounds| - k
  {
    if k < |rounds| && CallsTools(rounds[k]) {
      CallsUntilThen(rounds, k + 1);
    }
  }

  /** The turns of rounds `i` to `j`, in order. */
  function TurnsOf(rounds: seq<Round>, i: nat, j: nat): seq<Message>
    requires j <= |rounds|
    decreases j
  {
    if j <= i then [] else TurnsOf(rounds, i, j - 1) + TurnOf(rounds[j - 1].reply)
  }

  /** The turns of the last few rounds before round `j`. */
  function Recent(rounds: seq<Round>, j: nat): seq<Message>
    requires j <= |rounds|
  {
    TurnsOf(rounds, if j < 4 then 0 else j - 4, j)
  }

  /** Nothing but this many turns. */
  predicate IsTurns(ms: seq<Message>, n: nat) {
    && (forall k | 0 <= k < |ms| :: InTurn(ms[k]))
    && Turns(ms, 0) == n
    && (ms != [] ==> ms[0].Assistant?)
  }

  lemma IsTurnsConcat(a: seq<Message>, m: nat, b: seq<Message>, n: nat)
    requires IsTurns(a, m) && IsTurns(b, n)
    ensures IsTurns(a + b, m + n)
  {
    TurnsConcat(a, b, 0);
  }

  lemma {:induction false} TurnsOfShape(rounds: seq<Round>, i: nat, j: nat)
    requires i <= j <= |rounds| && AllCallTools(rounds, j)
    ensures IsTurns(TurnsOf(rounds, i, j), j - i)
    decreases j
  {
    if i < j {
      TurnsOfShape(rounds, i, j - 1);
      assert CallsTools(rounds[j - 1]);
      OneTurn(rounds[j - 1].reply);
      IsTurnsConcat(TurnsOf(rounds, i, j - 1), j - 1 - i, TurnOf(rounds[j - 1].reply), 1);
    }
  }

  lemma {:induction false} NoTurns(ms: seq<Message>, i: nat)
    requires i <= |ms| && forall k | i <= k < |ms| :: ms[k].Tool?
    ensures Turns(ms, i) == 0
    decreases |ms| - i
  {
    if i < |ms| {
      NoTurns(ms, i + 1);
    }
  }

  lemma OneTurn(reply: Reply)
    requires reply.Answer?
    ensures IsTurns(TurnOf(reply), 1) && WellFormed(TurnOf(reply))
  {
    var turn, results := TurnOf(reply), Results(reply.calls);
    ResultsAnswer(reply.calls);
    forall j | 1 <= j < |turn| ensures turn[j].Tool? && turn[j].callId == Ids(reply.calls)[j - 1] {
      assert turn[j] == results[j - 1];
    }
    NoTurns(turn, 1);
    assert forall i | 0 <= i < |turn| :: PlacedAt(turn, i);
  }

  lemma TurnsOfEndsWith(rounds: seq<Round>, i: nat, i': nat, j: nat)
    requires i <= i' <= j <= |rounds|
    ensures EndsWith(TurnsOf(rounds, i, j), TurnsOf(rounds, i', j))
    decreases j
  {
    if i' < j {
      TurnsOfEndsWith(rounds, i, i', j - 1);
      EndsWithSame(TurnsOf(rounds, i, j - 1), TurnsOf(rounds, i', j - 1), TurnOf(rounds[j - 1].reply));
    }
  }

  lemma EndsWithSame(ms: seq<Message>, suffix: seq<Message>, more: seq<Message>)
    requires EndsWith(ms, suffix)
    ensures EndsWith(ms + more, suffix + more)
  {
  }

  lemma EndsWithTrans(ms: seq<Message>, mid: seq<Message>, suffix: seq<Message>)
    requires EndsWith(ms, mid) && EndsWith(mid, suffix)
    ensures EndsWith(ms, suffix)
  {
    forall i | 0 <= i < |suffix| ensures suffix[i] == ms[|ms| - |suffix| + i] {
      assert suffix[i] == mid[|mid| - |suffix| + i];
    }
  }

  /** A list that is sent is the one built so far, or what compression makes of that one
      once it has grown beyond the threshold. */
  function Prepared(built: seq<Message>, summary: Option<string>): seq<Message> {
    if |built| <= COMPRESS_THRESHOLD then built else Compressed(built, summary)
  }

  lemma RecentGrows(rounds: seq<Round>, j: nat, ms: seq<Message>)
    requires j < |rounds| && EndsWith(ms, Recent(rounds, j))
    ensures EndsWith(ms + TurnOf(rounds[j].reply), Recent(rounds, j + 1))
  {
    var from := if j + 1 < KEEP_TURNS then 0 else j + 1 - KEEP_TURNS;
    var turn := TurnOf(rounds[j].reply);
    EndsWithSame(ms, Recent(rounds, j), turn);
    if j < KEEP_TURNS {
      TurnsOfEndsWith(rounds, 0, from, j + 1);
    } else {
      TurnsOfEndsWith(rounds, j - KEEP_TURNS, from, j + 1);
    }
    EndsWithTrans(ms + turn, Recent(rounds, j) + turn, Recent(rounds, j + 1));
  }

  /** What is there at the start of round `k`, before any compression. */
  function BuiltAt(history: seq<Message>, rounds: seq<Round>, k: nat): seq<Message>
    requires k <= |rounds|
  {
    if k == 0 then history
    else
      var round := rounds[k - 1];
      Prepared(BuiltAt(history, rounds, k - 1), round.summary) + TurnOf(round.reply)
  }

  /** What is sent in round `k`. */
  function SentAt(history: seq<Message>, rounds: seq<Round>, k: nat): seq<Message>
    requires k < |rounds|
  {
    Prepared(BuiltAt(history, rounds, k), rounds[k].summary)
  }

  predicate IsBlank(round: Round) {
    round.reply.Answer? && |round.reply.calls| == 0 && |round.reply.text| == 0
  }

  /** A list that is sent to the model. */
  datatype Request = Request(messages: seq<Message>)

  /** The lists sent in the first `n` rounds. */
  function SentUpTo(history: seq<Message>, rounds: seq<Round>, n: nat): (sent: seq<Request>)
    requires n <= |rounds|
    ensures |sent| == n
  {
    if n == 0 then []
    else SentUpTo(history, rounds, n - 1) + [Request(SentAt(history, rounds, n - 1))]
  }

  /** What a run with `turns` rounds of tool calls sends: one list in every round, and one
      more when the answer is streamed, because the last one was blank or the rounds are
      used up. */
  function AllSent(history: seq<Message>, rounds: seq<Round>, turns: nat): seq<Request>
    requires turns <= |rounds|
  {
    if turns == |rounds| then
      SentUpTo(history, rounds, turns) + [Request(BuiltAt(history, rounds, turns))]
    else
      SentUpTo(history, rounds, turns + 1) +
      if IsBlank(rounds[turns]) then [Request(SentAt(history, rounds, turns))] else []
  }

  /** The run ends in the first round in which the model calls no tools, or with the rounds
      used up. */
  predicate Sends(history: seq<Message>, rounds: seq<Round>, sent: seq<Request>, turns: nat) {
    turns == CallsUntil(rounds, 0) && sent == AllSent(history, rounds, turns)
  }

  method WithTurn(before: seq<Message>, reply: Reply) returns (working: seq<Message>)
    requires reply.Answer?
    ensures working == before + TurnOf(reply)
  {
    var calls := reply.calls;
    working := before + [Assistant(Text(reply.text), Ids(calls))];
    ghost var asked := working;
    var i := 0;
    while i < |calls|
      invariant 0 <= i <= |calls|
      invariant working == asked + Results(calls[..i])
    {
      assert calls[..i + 1][..i] == calls[..i];
      working := working + [Tool(Text(calls[i].output), calls[i].id)];
      i := i + 1;
    }
    assert calls[..i] == calls;
  }

  method Prepare(built: seq<Message>, summary: Option<string>) returns (ms: seq<Message>)
    ensures ms == Prepared(built, summary)
  {
    ms := built;
    if |built| > COMPRESS_THRESHOLD {
      var cut: nat;
      ms, cut := Compress(built, summary);
    }
  }

  lemma NothingBuilt(history: seq<Message>, rounds: seq<Round>)
    ensures BuiltAt(history, rounds, 0) == history
  {
  }

  lemma NextBuilt(history: seq<Message>, rounds: seq<Round>, k: nat)
    requires k < |rounds|
    ensures BuiltAt(history, rounds, k + 1) == SentAt(history, rounds, k) + TurnOf(rounds[k].reply)
  {
  }

  /** One round: the list is compressed, if need be, and sent, and the turn it leads to is
      appended. */
  method OneRound(history: seq<Message>, rounds: seq<Round>, k: nat, built: seq<Message>)
    returns (ms: seq<Message>, working: seq<Message>)
    requires k < |rounds| && built == BuiltAt(history, rounds, k)
    ensures ms == SentAt(history, rounds, k)
    ensures working == if CallsTools(rounds[k]) then BuiltAt(history, rounds, k + 1) else ms
  {
    ms := Prepare(built, rounds[k].summary);
    working := ms;
    if CallsTools(rounds[k]) {
      NextBuilt(history, rounds, k);
      working := WithTurn(ms, rounds[k].reply);
    }
  }

  /** The rounds of a run, and every list it sends. `rounds` holds what the world does in
      each round that may be needed. */
  method Run(history: seq<Message>, rounds: seq<Round>) returns (sent: seq<Request>, turns: nat)
    requires |rounds| == 12
    ensures Sends(history, rounds, sent, turns)
  {
    hide SentAt, TurnOf, BuiltAt;
    var ms, working := history, history;
    NothingBuilt(history, rounds);
    sent, turns := [], 0;
    while turns < MAX_TOOL_ROUNDS
      invariant turns <= MAX_TOOL_ROUNDS && CallsUntil(rounds, turns) == CallsUntil(rounds, 0)
      invariant working == BuiltAt(history, rounds, turns) && sent == SentUpTo(history, rounds, turns)
    {
      ms, working := OneRound(history, rounds, turns, working);
      sent := sent + [Request(ms)];
      if !CallsTools(rounds[turns]) {
        if IsBlank(rounds[turns]) {
          sent := sent + [Request(ms)];
        }
        return;
      }
      turns := turns + 1;
    }
    sent := sent + [Request(working)];
  }

  /** From a well-formed history the list is well-formed, and it ends, verbatim, with the
      turns of the last four rounds. */
  ghost predicate KeepsTurns(history: seq<Message>, rounds: seq<Round>, ms: seq<Message>, behind: nat)
    requires behind <= |rounds|
  {
    (WellFormed(history) ==> WellFormed(ms)) && EndsWith(ms, Recent(rounds, behind))
  }

  lemma PreparedKeeps(history: seq<Message>, rounds: seq<Round>, built: seq<Message>, k: nat, summary: Option<string>)
    requires k <= |rounds| && AllCallTools(rounds, k) && KeepsTurns(history, rounds, built, k)
    ensures KeepsTurns(history, rounds, Prepared(built, summary), k)
  {
    TurnsOfShape(rounds, if k < KEEP_TURNS then 0 else k - KEEP_TURNS, k);
    CompressionKeepsRecent(built, summary, Recent(rounds, k));
    if WellFormed(built) {
      CompressionKeepsTurns(built, summary);
    }
  }

  lemma TurnKeeps(history: seq<Message>, rounds: seq<Round>, ms: seq<Message>, k: nat)
    requires k < |rounds| && CallsTools(rounds[k]) && KeepsTurns(history, rounds, ms, k)
    ensures KeepsTurns(history, rounds, ms + TurnOf(rounds[k].reply), k + 1)
  {
    RecentGrows(rounds, k, ms);
    OneTurn(rounds[k].reply);
    if WellFormed(ms) {
      WellFormedConcat(ms, TurnOf(rounds[k].reply));
    }
  }

  lemma {:induction false} BuiltKeepsTurns(history: seq<Message>, rounds: seq<Round>, k: nat)
    requires k <= |rounds| && AllCallTools(rounds, k)
    ensures KeepsTurns(history, rounds, BuiltAt(history, rounds, k), k)
    decreases k, 0
  {
    if k > 0 {
      SentKeepsTurns(history, rounds, k - 1);
      assert CallsTools(rounds[k - 1]);
      TurnKeeps(history, rounds, SentAt(history, rounds, k - 1), k - 1);
      NextBuilt(history, rounds, k - 1);
    }
  }

  lemma {:induction false} SentKeepsTurns(history: seq<Message>, rounds: seq<Round>, k: nat)
    requires k < |rounds| && AllCallTools(rounds, k)
    ensures KeepsTurns(history, rounds, SentAt(history, rounds, k), k)
    decreases k, 1
  {
    BuiltKeepsTurns(history, rounds, k);
    PreparedKeeps(history, rounds, BuiltAt(history, rounds, k), k, rounds[k].summary);
  }

  lemma {:induction false} SentUpToAt(history: seq<Message>, rounds: seq<Round>, n: nat, i: nat)
    requires i < n <= |rounds|
    ensures SentUpTo(history, rounds, n)[i].messages == SentAt(history, rounds, i)
  {
    hide SentAt;
    if i < n - 1 {
      SentUpToAt(history, rounds, n - 1, i);
    }
  }

  /** How many rounds a list has behind it: a streamed answer after a blank one has as many
      as that. */
  function RoundsBehind(turns: nat, i: nat): nat {
    if i <= turns then i else turns
  }

  lemma OneListKeepsTurns(history: seq<Message>, rounds: seq<Round>, turns: nat, i: nat)
    requires turns <= |rounds| && AllCallTools(rounds, turns) && i < |AllSent(history, rounds, turns)|
    ensures KeepsTurns(history, rounds, AllSent(history, rounds, turns)[i].messages, RoundsBehind(turns, i))
  {
    var n := if turns < |rounds| then turns + 1 else turns;
    if i < n {
      SentUpToAt(history, rounds, n, i);
      SentKeepsTurns(history, rounds, i);
    } else if turns < |rounds| {
      SentKeepsTurns(history, rounds, turns);
    } else {
      BuiltKeepsTurns(history, rounds, turns);
    }
  }

  // ---------------------------------------------------------------------------
  // What the first message says
  // ---------------------------------------------------------------------------

  /** The anchor and some messages after it have given way to a summary: a user message with
      the beginning of what the anchor said, the number of messages taken, and the summary. */
  ghost predicate IsSummarized(built: seq<Message>, summary: string, ms: seq<Message>) {
    && 0 < |ms| < |built| && ms[1..] == built[|built| - |ms| + 1..]
    && ms[0].User?
    && var origin := Rendered(built[0].content);
       Rendered(ms[0].content) ==
         (if origin == "" then ""
          else "[Original task: " + (if |origin| <= 400 then origin else origin[..400]) + "]\n\n")
         + "[Compressed context: " + Decimal(|built| - |ms|) + " earlier messages]\n" + summary
  }

  /** A list of up to 18 messages is sent as it is built, and so is any without a summary;
      a longer one has at most four turns after its first message. */
  ghost predicate Follows(built: seq<Message>, summary: Option<string>, ms: seq<Message>) {
    if |built| <= 18 || summary.None? || summary.value == "" then ms == built
    else (ms == built || IsSummarized(built, summary.value, ms)) && |ms| > 0 && Turns(ms, 1) <= 4
  }

  lemma PreparedFollows(built: seq<Message>, summary: Option<string>)
    ensures Follows(built, summary, Prepared(built, summary))
  {
    if |built| > 18 && summary.Some? && summary.value != "" {
      CompressionLeavesFour(built, summary.value);
      var cut, ms := CutOf(built, summary), Prepared(built, summary);
      hide Turns, TailStart, LastCut;
      if cut > 0 {
        assert ms[1..] == built[1 + cut..] && |built| - |ms| == cut;
      }
    }
  }

  /** What is built for the list at this place: the history, or the list sent before with
      the turn that the model's answer to it added. */
  function BuiltAfter(history: seq<Message>, rounds: seq<Round>, sent: seq<Request>, i: nat): seq<Message>
    requires i <= |rounds| && i <= |sent|
  {
    if i == 0 then history else sent[i - 1].messages + TurnOf(rounds[i - 1].reply)
  }

  /** Every list that a run sends follows from the one before. A streamed answer is asked for
      with the list of the blank one again, or with all that has been built by the end. */
  lemma EachListFollows(history: seq<Message>, rounds: seq<Round>, sent: seq<Request>, turns: nat, i: nat)
    requires Sends(history, rounds, sent, turns) && i < |sent|
    ensures if turns < |rounds| && i == turns + 1 then sent[i] == sent[i - 1]
      else if i == |rounds| then sent[i].messages == BuiltAfter(history, rounds, sent, i)
      else i < |rounds| && Follows(BuiltAfter(history, rounds, sent, i), rounds[i].summary, sent[i].messages)
  {
    hide SentAt, BuiltAt, Follows, TurnOf;
    var n := if turns < |rounds| then turns + 1 else turns;
    if 0 < i <= |rounds| && i <= n {
      SentUpToAt(history, rounds, n, i - 1);
      NextBuilt(history, rounds, i - 1);
    }
    NothingBuilt(history, rounds);
    if i < n {
      SentUpToAt(history, rounds, n, i);
      SentFollows(history, rounds, i);
    } else if turns < |rounds| {
      SentUpToAt(history, rounds, n, turns);
    }
  }

  lemma SentFollows(history: seq<Message>, rounds: seq<Round>, i: nat)
    requires i < |rounds|
    ensures Follows(BuiltAt(history, rounds, i), rounds[i].summary, SentAt(history, rounds, i))
  {
    PreparedFollows(BuiltAt(history, rounds, i), rounds[i].summary);
  }

  /** A round in which the model calls tools is followed by another list; the first that does
      not is the last, or is followed by one more if the answer is blank. */
  lemma HowManyAreSent(history: seq<Message>, rounds: seq<Round>, sent: seq<Request>, turns: nat)
    requires Sends(history, rounds, sent, turns)
    ensures turns <= |rounds| && forall k | 0 <= k < turns :: rounds[k].reply.Answer? && rounds[k].reply.calls != []
    ensures turns == |rounds| ==> |sent| == turns + 1
    ensures turns < |rounds| ==>
      var reply := rounds[turns].reply;
      && (reply.Answer? ==> reply.calls == [])
      && |sent| == turns + if reply.Answer? && reply.text == "" then 2 else 1
  {
    CallsUntilThen(rounds, 0);
    forall k | 0 <= k < turns ensures CallsTools(rounds[k]) {
    }
  }

  /** So many openings of a quoted task. */
  function Tags(k: nat): (s: string)
    ensures |s| == 16 * k
  {
    if k == 0 then "" else "[Original task: " + Tags(k - 1)
  }

  /** The first message is that one, or quotes the beginning of what it said, this often. */
  ghost predicate Quotes(m: Message, first: Message, k: nat) {
    if k == 0 then m == first
    else
      && 16 * (k - 1) <= 400
      && Tags(k) + Truncated(Rendered(first.content), 400 - 16 * (k - 1)) <= Rendered(m.content)
  }

  lemma PrefixTruncated(a: string, b: string, n: nat)
    requires a <= b
    ensures Truncated(a, n) <= Truncated(b, n)
  {
  }

  lemma TruncatedInside(a: string, b: string, n: nat, m: nat)
    requires |a| <= n && n - |a| <= m
    ensures Truncated(a + Truncated(b, m), n) == a + Truncated(b, n - |a|)
  {
  }

  const TAG := "[Original task: "

  lemma TagsOneMore(k: nat, rest: string)
    ensures TAG + (Tags(k) + rest) == Tags(k + 1) + rest
  {
    hide TAG;
    assert TAG + (Tags(k) + rest) == (TAG + Tags(k)) + rest;
    TagsUnfold(k);
  }

  lemma TagsUnfold(k: nat)
    ensures Tags(k + 1) == TAG + Tags(k)
  {
  }

  /** What a summary is made from is quoted in it. */
  lemma QuotedAgain(built: seq<Message>, summary: string, ms: seq<Message>, start: string)
    requires IsSummarized(built, summary, ms) && Rendered(built[0].content) != ""
    requires start <= Truncated(Rendered(built[0].content), 400)
    ensures TAG + start <= Rendered(ms[0].content)
  {
    hide Rendered;
    var origin := Truncated(Rendered(built[0].content), 400);
    assert TAG + start <= TAG + origin;
  }

  lemma QuotedStart(task: string, k: nat)
    requires 0 < k && 16 * k <= 400
    ensures Truncated(Tags(k) + Truncated(task, 400 - 16 * (k - 1)), 400) == Tags(k) + Truncated(task, 400 - 16 * k)
  {
    hide Tags;
    TruncatedInside(Tags(k), task, 400, 400 - 16 * (k - 1));
  }

  lemma SummaryQuotes(built: seq<Message>, summary: string, ms: seq<Message>, first: Message, k: nat)
    requires IsSummarized(built, summary, ms) && Quotes(built[0], first, k) && 16 * k <= 400
    requires Rendered(first.content) != ""
    ensures Quotes(ms[0], first, k + 1)
  {
    var task, origin := Rendered(first.content), Rendered(built[0].content);
    var start := Tags(k) + Truncated(task, 400 - 16 * k);
    if k == 0 {
      assert start == Truncated(task, 400);
    } else {
      QuotedStart(task, k);
      PrefixTruncated(Tags(k) + Truncated(task, 400 - 16 * (k - 1)), origin, 400);
    }
    hide Rendered, IsSummarized, TAG, Tags, Truncated;
    QuotedAgain(built, summary, ms, start);
    TagsOneMore(k, Truncated(task, 400 - 16 * k));
  }

  lemma FollowingQuotes(built: seq<Message>, summary: Option<string>, ms: seq<Message>, first: Message, k: nat)
    returns (k': nat)
    requires Follows(built, summary, ms) && built != [] && Quotes(built[0], first, k) && 16 * k <= 400
    requires Rendered(first.content) != ""
    ensures k' <= k + 1 && ms != [] && Quotes(ms[0], first, k')
  {
    hide IsSummarized, Quotes, Rendered, Turns;
    if ms == built {
      k' := k;
    } else {
      SummaryQuotes(built, summary.value, ms, first, k);
      k' := k + 1;
    }
  }

  lemma {:induction false} QuotedSoFar(history: seq<Message>, rounds: seq<Round>, sent: seq<Request>, turns: nat,
                                       i: nat)
    returns (k: nat)
    requires Sends(history, rounds, sent, turns) && |rounds| == 12 && i < |sent|
    requires history != [] && Rendered(history[0].content) != ""
    ensures k <= i + 1 && k <= 12
    ensures sent[i].messages != [] && Quotes(sent[i].messages[0], history[0], k)
  {
    hide Quotes, Follows, Sends, Rendered, TurnOf;
    EachListFollows(history, rounds, sent, turns, i);
    if i > 0 {
      k := QuotedSoFar(history, rounds, sent, turns, i - 1);
    } else {
      QuotesItself(history[0]);
      k := 0;
    }
    if i < |rounds| && !(turns < |rounds| && i == turns + 1) {
      k := FollowingQuotes(BuiltAfter(history, rounds, sent, i), rounds[i].summary, sent[i].messages, history[0], k);
    }
  }

  lemma QuotesItself(m: Message)
    ensures Quotes(m, m, 0)
  {
  }

  /** The task is never lost: the first message of every list that a run sends is that of the
      history, or begins with a quote of what it said, at least its first 224 characters,
      through up to twelve compressions one over the other. */
  lemma EveryListQuotesTask(history: seq<Message>, rounds: seq<Round>, sent: seq<Request>, turns: nat, i: nat)
    requires Sends(history, rounds, sent, turns) && |rounds| == 12 && i < |sent|
    requires history != [] && Rendered(history[0].content) != ""
    ensures sent[i].messages != []
    ensures sent[i].messages[0] == history[0] ||
      exists k | 1 <= k <= 12 ::
        Tags(k) + Truncated(Rendered(history[0].content), 224) <= Rendered(sent[i].messages[0].content)
  {
    hide Rendered, Sends;
    var k := QuotedSoFar(history, rounds, sent, turns, i);
    if k > 0 {
      var task := Rendered(history[0].content);
      assert Tags(k) + Truncated(task, 224) <= Tags(k) + Truncated(task, 400 - 16 * (k - 1));
    }
  }

  /** Whatever the model answers and wherever compression strikes, every list that a run
      sends from a well-formed history, the one for a streamed answer included, is
      well-formed, and ends, verbatim, with the turns of the last four rounds. */
  lemma EveryListKeepsTurns(history: seq<Message>, rounds: seq<Round>, sent: seq<Request>, turns: nat)
    requires Sends(history, rounds, sent, turns)
    ensures forall i | 0 <= i < |sent| :: KeepsTurns(history, rounds, sent[i].messages, RoundsBehind(turns, i))
    ensures WellFormed(history) ==> forall i | 0 <= i < |sent| :: WellFormed(sent[i].messages)
  {
    CallsUntilThen(rounds, 0);
    forall i | 0 <= i < |sent| ensures KeepsTurns(history, rounds, sent[i].messages, RoundsBehind(turns, i)) {
      OneListKeepsTurns(history, rounds, turns, i);
    }
  }
}

/** White space and line breaks of text, as Python's string methods see them. */
module Text {

  /** The characters at which `splitlines` ends a line. */
  predicate IsBreak(c: char) {
    || '\n' <= c <= '\r'
    || '\U{001C}' <= c <= '\U{001E}'
    || c == '\U{0085}' || c == '\U{2028}' || c == '\U{2029}'
  }

  /** The characters that `strip` removes. */
  predicate IsSpace(c: char) {
    || IsBreak(c) || c == '\t' || c == ' ' || c == '\U{001F}' || c == '\U{00A0}' || c == '\U{1680}'
    || '\U{2000}' <= c <= '\U{200A}'
    || c == '\U{202F}' || c == '\U{205F}' || c == '\U{3000}'
  }

  function LStrip(s: string): string {
    if s != "" && IsSpace(s[0]) then LStrip(s[1..]) else s
  }

  function RStrip(s: string): string {
    if s != "" && IsSpace(s[|s| - 1]) then RStrip(s[..|s| - 1]) else s
  }

  function Strip(s: string): string {
    RStrip(LStrip(s))
  }

  /** No white space at either end. */
  predicate IsStripped(s: string) {
    s != "" ==> !IsSpace(s[0]) && !IsSpace(s[|s| - 1])
  }

  lemma {:induction false} LStripStarts(s: string)
    ensures var t := LStrip(s); |t| <= |s| && t == s[|s| - |t|..] && (t != "" ==> !IsSpace(t[0]))
  {
    if s != "" && IsSpace(s[0]) {
      LStripStarts(s[1..]);
    }
  }

  lemma {:induction false} RStripEnds(s: string)
    ensures var t := RStrip(s); t <= s && (t != "" ==> !IsSpace(t[|t| - 1]))
  {
    if s != "" && IsSpace(s[|s| - 1]) {
      RStripEnds(s[..|s| - 1]);
    }
  }

  lemma StripIsStripped(s: string)
    ensures IsStripped(Strip(s))
  {
    LStripStarts(s);
    RStripEnds(LStrip(s));
  }

  lemma StripOfStripped(s: string)
    requires IsStripped(s)
    ensures Strip(s) == s
  {
  }

  lemma {:induction false} RStripKeepsFirst(s: string)
    requires s != "" && !IsSpace(s[0])
    ensures RStrip(s) != ""
  {
    if IsSpace(s[|s| - 1]) {
      RStripKeepsFirst(s[..|s| - 1]);
    }
  }

  function LowerChar(c: char): char {
    if 'A' <= c <= 'Z' then 'a' + (c - 'A') else c
  }

  /** Lower case, of ASCII letters. */
  function Lower(s: string): string {
    seq(|s|, i requires 0 <= i < |s| => LowerChar(s[i]))
  }

  function Decimal(n: nat): string {
    var digit := ["0123456789"[n % 10]];
    if n < 10 then digit else Decimal(n / 10) + digit
  }

  /** At most the first `n` characters. */
  function Truncated(s: string, n: nat): string {
    if |s| <= n then s else s[..n]
  }

  // ---------------------------------------------------------------------------
  // Lines
  // ---------------------------------------------------------------------------

  predicate NoBreaks(s: string) {
    forall i | 0 <= i < |s| :: !IsBreak(s[i])
  }

  /** The only line breaks are newlines. */
  predicate OnlyNewlines(s: string) {
    forall i | 0 <= i < |s| && IsBreak(s[i]) :: s[i] == '\n'
  }

  /** Reading a text file turns every carriage return, with a newline after it or not,
      into a newline. */
  function UniversalNewlines(s: string): string {
    if s == "" then ""
    else if s[0] == '\r' then "\n" + UniversalNewlines(if |s| > 1 && s[1] == '\n' then s[2..] else s[1..])
    else [s[0]] + UniversalNewlines(s[1..])
  }

  function FirstBreak(s: string): (k: nat)
    ensures k <= |s| && NoBreaks(s[..k])
    ensures k < |s| ==> IsBreak(s[k])
  {
    if s == "" || IsBreak(s[0]) then 0 else 1 + FirstBreak(s[1..])
  }

  /** The lines of a text without carriage returns, as `splitlines` gives them. */
  function Lines(s: string): seq<string> {
    var k := FirstBreak(s);
    if s == "" then [] else if k == |s| then [s] else [s[..k]] + Lines(s[k + 1..])
  }

  /** The lines with newlines between them. */
  function Joined(lines: seq<string>): string {
    if lines == [] then "" else if |lines| == 1 then lines[0] else lines[0] + "\n" + Joined(lines[1..])
  }

  lemma {:induction false} UniversalNewlinesIdentity(s: string)
    requires OnlyNewlines(s)
    ensures UniversalNewlines(s) == s
  {
    if s != "" {
      assert IsBreak('\r');
      UniversalNewlinesIdentity(s[1..]);
    }
  }

  lemma LinesOfFirst(line: string, rest: string)
    requires NoBreaks(line)
    ensures Lines(line + "\n" + rest) == [line] + Lines(rest)
  {
    var s := line + "\n" + rest;
    var k := FirstBreak(s);
    assert s[|line|] == '\n';
    assert forall i | 0 <= i < |line| :: s[i] == line[i];
    assert s[..k] == line && s[k + 1..] == rest;
  }

  lemma {:induction false} LinesHaveNoBreaks(s: string)
    ensures forall i | 0 <= i < |Lines(s)| :: NoBreaks(Lines(s)[i])
  {
    if s != "" && FirstBreak(s) < |s| {
      LinesHaveNoBreaks(s[FirstBreak(s) + 1..]);
    }
  }

  lemma {:induction false} JoinedHasOnlyNewlines(lines: seq<string>)
    requires forall i | 0 <= i < |lines| :: NoBreaks(lines[i])
    ensures OnlyNewlines(Joined(lines))
  {
    if |lines| > 1 {
      JoinedHasOnlyNewlines(lines[1..]);
    }
  }

  /** Text whose only breaks are newlines, and which does not end in one, is its lines
      joined again. */
  lemma {:induction false} JoinedLines(s: string)
    requires OnlyNewlines(s) && (s != "" ==> !IsBreak(s[|s| - 1]))
    ensures Joined(Lines(s)) == s
  {
    var k := FirstBreak(s);
    if s != "" && k < |s| {
      assert s[k] == '\n';
      JoinedLines(s[k + 1..]);
      assert s == s[..k] + "\n" + s[k + 1..];
    }
  }

  // ---------------------------------------------------------------------------
  // Text that a newline follows
  // ---------------------------------------------------------------------------

  /** What reading a file makes of text that a newline follows: a carriage return at its end
      goes into that newline. */
  function Ended(s: string): string {
    if s == "" then ""
    else if s[0] != '\r' then [s[0]] + Ended(s[1..])
    else if |s| == 1 then ""
    else "\n" + Ended(if s[1] == '\n' then s[2..] else s[1..])
  }

  lemma {:induction false} ReadEnded(s: string, rest: string)
    ensures UniversalNewlines(s + "\n" + rest) == Ended(s) + "\n" + UniversalNewlines(rest)
  {
    var all := s + "\n" + rest;
    if s == "" {
      assert all[1..] == rest;
    } else if s == "\r" {
      assert all[2..] == rest;
    } else {
      var n := if s[0] == '\r' && s[1] == '\n' then 2 else 1;
      var first := if s[0] == '\r' then "\n" else [s[0]];
      ReadEnded(s[n..], rest);
      BothUnfold(s, "\n" + rest);
      hide Ended, UniversalNewlines;
      FourParts(s[n..], "\n", rest, s, n);
      Reassociate(first, Ended(s[n..]), "\n", UniversalNewlines(rest));
    }
  }

  lemma Reassociate(a: string, b: string, c: string, d: string)
    ensures a + (b + c + d) == (a + b) + c + d
  {
  }

  lemma FourParts(tail: string, b: string, c: string, s: string, n: nat)
    requires n <= |s| && tail == s[n..]
    ensures tail + b + c == tail + (b + c) && s + b + c == s + (b + c)
  {
  }

  /** What the first character, or a carriage return and a newline, become. */
  lemma BothUnfold(s: string, t: string)
    requires s != "" && s != "\r"
    ensures var n := if s[0] == '\r' && s[1] == '\n' then 2 else 1;
      var first := if s[0] == '\r' then "\n" else [s[0]];
      && UniversalNewlines(s + t) == first + UniversalNewlines(s[n..] + t)
      && Ended(s) == first + Ended(s[n..])
  {
    var n := if s[0] == '\r' && s[1] == '\n' then 2 else 1;
    assert (s + t)[n..] == s[n..] + t;
  }

  predicate NoReturns(s: string) {
    forall i | 0 <= i < |s| :: s[i] != '\r'
  }

  lemma {:induction false} ReadHasNoReturns(s: string)
    ensures NoReturns(UniversalNewlines(s))
  {
    if s != "" {
      ReadHasNoReturns(if s[0] == '\r' && |s| > 1 && s[1] == '\n' then s[2..] else s[1..]);
    }
  }

  /** Reading changes exactly the text that has carriage returns. */
  lemma {:induction false} UniversalNewlinesExactly(s: string)
    ensures UniversalNewlines(s) == s <==> NoReturns(s)
  {
    ReadHasNoReturns(s);
    if NoReturns(s) {
      ReadPrefix(s, "");
      assert s + "" == s;
    }
  }

  lemma {:induction false} ReadPrefix(s: string, rest: string)
    requires NoReturns(s)
    ensures UniversalNewlines(s + rest) == s + UniversalNewlines(rest)
  {
    if s == "" {
      assert s + rest == rest;
    } else {
      assert (s + rest)[1..] == s[1..] + rest;
      ReadPrefix(s[1..], rest);
    }
  }

  lemma {:induction false} EndedPrefix(s: string, rest: string)
    requires NoReturns(s)
    ensures Ended(s + rest) == s + Ended(rest)
  {
    if s == "" {
      assert s + rest == rest;
    } else {
      assert (s + rest)[1..] == s[1..] + rest;
      EndedPrefix(s[1..], rest);
    }
  }

  /** The text has no line break, but for a carriage return at its end. */
  predicate OnOneLine(s: string) {
    NoBreaks(s) || (s[|s| - 1] == '\r' && NoBreaks(s[..|s| - 1]))
  }

  lemma {:induction false} EndedOnOneLine(s: string)
    ensures NoBreaks(Ended(s)) <==> OnOneLine(s)
  {
    if s == "" {
    } else if s[0] != '\r' {
      EndedOnOneLine(s[1..]);
      FirstCharacter(s);
      assert Ended(s)[0] == s[0] && Ended(s)[1..] == Ended(s[1..]);
      assert NoBreaks(Ended(s)) <==> !IsBreak(s[0]) && NoBreaks(Ended(s[1..])) by {
        FirstBroken(Ended(s));
      }
    } else if |s| > 1 {
      assert IsBreak(Ended(s)[0]);
      assert IsBreak(s[0]) && s[..|s| - 1][0] == s[0];
    }
  }

  lemma FirstBroken(s: string)
    requires s != ""
    ensures NoBreaks(s) <==> !IsBreak(s[0]) && NoBreaks(s[1..])
  {
    assert forall i | 1 <= i < |s| :: s[1..][i - 1] == s[i];
  }

  lemma FirstCharacter(s: string)
    requires s != "" && s[0] != '\r'
    ensures OnOneLine(s) <==> !IsBreak(s[0]) && OnOneLine(s[1..])
  {
    FirstBroken(s);
    if |s| > 1 {
      FirstBroken(s[..|s| - 1]);
      assert s[..|s| - 1][1..] == s[1..][..|s| - 2];
    }
  }

  predicate IsBlank(s: string) {
    forall i | 0 <= i < |s| :: IsSpace(s[i])
  }

  lemma {:induction false} EndedOfBlank(s: string)
    requires IsBlank(s)
    ensures IsBlank(Ended(s))
  {
    if s != "" && s[0] != '\r' {
      EndedOfBlank(s[1..]);
    } else if |s| > 1 {
      EndedOfBlank(if s[1] == '\n' then s[2..] else s[1..]);
    }
  }

  lemma {:induction false} LStripParts(s: string)
    ensures var n := |s| - |LStrip(s)|; 0 <= n <= |s| && s[n..] == LStrip(s) && IsBlank(s[..n])
  {
    if s != "" && IsSpace(s[0]) {
      LStripParts(s[1..]);
    }
  }

  lemma {:induction false} RStripParts(s: string)
    ensures RStrip(s) <= s && IsBlank(s[|RStrip(s)|..])
  {
    if s != "" && IsSpace(s[|s| - 1]) {
      RStripParts(s[..|s| - 1]);
    }
  }

  lemma {:induction false} LStripSkips(a: string, s: string)
    requires IsBlank(a) && (s != "" ==> !IsSpace(s[0]))
    ensures LStrip(a + s) == s
  {
    if a == "" {
      assert a + s == s;
    } else {
      assert (a + s)[1..] == a[1..] + s;
      LStripSkips(a[1..], s);
    }
  }

  lemma {:induction false} RStripSkips(s: string, b: string)
    requires IsBlank(b) && (s != "" ==> !IsSpace(s[|s| - 1]))
    ensures RStrip(s + b) == s
  {
    if b == "" {
      assert s + b == s;
    } else {
      assert (s + b)[..|s + b| - 1] == s + b[..|b| - 1];
      RStripSkips(s, b[..|b| - 1]);
    }
  }

  lemma StripSkips(a: string, s: string, b: string)
    requires IsBlank(a) && IsBlank(b) && IsStripped(s) && s != ""
    ensures Strip(a + s + b) == s
  {
    assert a + s + b == a + (s + b);
    LStripSkips(a, s + b);
    RStripSkips(s, b);
  }

  lemma StripOfBlank(s: string)
    requires IsBlank(s)
    ensures Strip(s) == ""
  {
    LStripSkips(s, "");
    assert s + "" == s;
  }

  /** A text is its stripped part with white space around. */
  lemma StripParts(s: string) returns (a: string, b: string)
    ensures IsBlank(a) && IsBlank(b) && s == a + Strip(s) + b
  {
    LStripParts(s);
    var t := LStrip(s);
    RStripParts(t);
    a, b := s[..|s| - |t|], t[|RStrip(t)|..];
  }

  lemma {:induction false} EndedSurrounded(a: string, s: string, b: string) returns (a': string)
    requires IsBlank(a) && s != "" && !IsSpace(s[0]) && NoBreaks(s)
    ensures IsBlank(a') && Ended(a + s + b) == a' + s + Ended(b)
  {
    if a == "" {
      a' := "";
      assert IsBreak('\r');
      assert a + s + b == s + b && "" + s + Ended(b) == s + Ended(b);
      EndedPrefix(s, b);
    } else {
      var n := if a[0] == '\r' && |a| > 1 && a[1] == '\n' then 2 else 1;
      var first := if a[0] == '\r' then "\n" else [a[0]];
      var rest := EndedSurrounded(a[n..], s, b);
      EndedUnfolds(a, s + b);
      hide Ended;
      a' := first + rest;
      FourParts(a[n..], s, b, a, n);
      Reassociate(first, rest, s, Ended(b));
    }
  }

  /** What the first character, or a carriage return and a newline, become. */
  lemma EndedUnfolds(a: string, t: string)
    requires a != "" && t != "" && t[0] != '\n'
    ensures var n := if a[0] == '\r' && |a| > 1 && a[1] == '\n' then 2 else 1;
      Ended(a + t) == (if a[0] == '\r' then "\n" else [a[0]]) + Ended(a[n..] + t)
  {
    var n := if a[0] == '\r' && |a| > 1 && a[1] == '\n' then 2 else 1;
    assert (a + t)[n..] == a[n..] + t;
  }

  /** If what is stripped has no line break, reading does not change it. */
  lemma StripOfEnded(s: string)
    requires NoBreaks(Strip(s))
    ensures Strip(Ended(s)) == Strip(s)
  {
    var a, b := StripParts(s);
    var e := Strip(s);
    if e == "" {
      assert a + e + b == a + b;
      EndedOfBlank(s);
      StripOfBlank(Ended(s));
    } else {
      StripIsStripped(s);
      var a' := EndedSurrounded(a, e, b);
      EndedOfBlank(b);
      StripSkips(a', e, Ended(b));
    }
  }

  /** The lines of a text that a newline follows. */
  function Pieces(s: string): (lines: seq<string>)
    ensures lines != []
  {
    var k := FirstBreak(s);
    if k == |s| then [s] else [s[..k]] + Pieces(s[k + 1..])
  }

  lemma FirstBreakOfLonger(s: string, rest: string)
    ensures FirstBreak(s + "\n" + rest) == FirstBreak(s)
    decreases |s|
  {
    var all := s + "\n" + rest;
    if s != "" && !IsBreak(s[0]) {
      assert all[1..] == s[1..] + "\n" + rest;
      FirstBreakOfLonger(s[1..], rest);
    }
  }

  lemma LinesAtBreak(s: string, k: nat)
    requires k == FirstBreak(s) && k < |s|
    ensures Lines(s) == [s[..k]] + Lines(s[k + 1..])
  {
    hide FirstBreak, IsBreak, NoBreaks;
  }

  lemma {:induction false} LinesOfPieces(s: string, rest: string)
    ensures Lines(s + "\n" + rest) == Pieces(s) + Lines(rest)
  {
    hide FirstBreak, IsBreak, NoBreaks;
    var all, k := s + "\n" + rest, FirstBreak(s);
    FirstBreakOfLonger(s, rest);
    LinesAtBreak(all, k);
    assert all[..k] == s[..k];
    if k == |s| {
      assert all[k + 1..] == rest && s[..k] == s;
    } else {
      assert all[k + 1..] == s[k + 1..] + "\n" + rest;
      LinesOfPieces(s[k + 1..], rest);
      assert [s[..k]] + (Pieces(s[k + 1..]) + Lines(rest)) == [s[..k]] + Pieces(s[k + 1..]) + Lines(rest);
    }
  }

  // ---------------------------------------------------------------------------
  // Lines that are printed, stripped and read
  // ---------------------------------------------------------------------------

  /** The lines with a newline after each. */
  function Printed(lines: seq<string>): string {
    if lines == [] then "" else lines[0] + "\n" + Printed(lines[1..])
  }

  predicate AllOnOneLine(lines: seq<string>) {
    forall i | 0 <= i < |lines| :: NoBreaks(lines[i])
  }

  /** A line that stripping the whole text does not change. */
  predicate IsInner(line: string) {
    line != "" && IsStripped(line)
  }

  lemma LinesOfOne(line: string)
    requires NoBreaks(line) && line != ""
    ensures Lines(line) == [line]
  {
    assert FirstBreak(line) == |line|;
  }

  lemma {:induction false} LinesOfPrinted(lines: seq<string>, last: string)
    requires AllOnOneLine(lines) && NoBreaks(last) && last != ""
    ensures Lines(Printed(lines) + last) == lines + [last]
  {
    hide Lines, NoBreaks;
    if lines == [] {
      assert Printed(lines) + last == last;
      LinesOfOne(last);
    } else {
      var rest := Printed(lines[1..]) + last;
      assert Printed(lines) + last == lines[0] + "\n" + rest;
      LinesOfFirst(lines[0], rest);
      LinesOfPrinted(lines[1..], last);
    }
  }

  /** Stripping on the left takes whole blank lines, and the start of the next. */
  lemma {:induction false} LStripPrinted(lines: seq<string>) returns (left: seq<string>)
    requires AllOnOneLine(lines)
    ensures LStrip(Printed(lines)) == Printed(left) && AllOnOneLine(left)
    ensures forall line | line in lines && IsInner(line) :: line in left
  {
    if lines == [] {
      left := [];
    } else {
      var first := lines[0];
      LStripParts(first);
      var n := |first| - |LStrip(first)|;
      var rest := Printed(lines[1..]);
      assert Printed(lines) == first[..n] + (LStrip(first) + "\n" + rest);
      if LStrip(first) == "" {
        assert Printed(lines) == (first + "\n") + rest;
        LStripBlank(first + "\n", rest);
        left := LStripPrinted(lines[1..]);
      } else {
        LStripStarts(first);
        LStripSkips(first[..n], LStrip(first) + "\n" + rest);
        left := [LStrip(first)] + lines[1..];
        assert left[1..] == lines[1..];
      }
    }
  }

  lemma {:induction false} LStripBlank(a: string, s: string)
    requires IsBlank(a)
    ensures LStrip(a + s) == LStrip(s)
  {
    if a == "" {
      assert a + s == s;
    } else {
      assert (a + s)[1..] == a[1..] + s;
      LStripBlank(a[1..], s);
    }
  }

  lemma {:induction false} RStripBlank(s: string, b: string)
    requires IsBlank(b)
    ensures RStrip(s + b) == RStrip(s)
  {
    if b == "" {
      assert s + b == s;
    } else {
      assert (s + b)[..|s + b| - 1] == s + b[..|b| - 1];
      RStripBlank(s, b[..|b| - 1]);
    }
  }

  lemma {:induction false} PrintedOneMore(lines: seq<string>, last: string)
    ensures Printed(lines + [last]) == Printed(lines) + last + "\n"
  {
    if lines == [] {
      assert [last][1..] == [];
    } else {
      assert (lines + [last])[1..] == lines[1..] + [last];
      PrintedOneMore(lines[1..], last);
    }
  }

  /** Stripping on the right takes whole blank lines, and the end of the one before. */
  lemma RStripOneMore(front: seq<string>, last: string)
    ensures RStrip(Printed(front + [last])) ==
      if RStrip(last) == "" then RStrip(Printed(front)) else Printed(front) + RStrip(last)
  {
    PrintedOneMore(front, last);
    RStripOfLast(Printed(front), last);
  }

  lemma RStripOfLast(head: string, last: string)
    ensures RStrip(head + last + "\n") == if RStrip(last) == "" then RStrip(head) else head + RStrip(last)
  {
    RStripParts(last);
    var kept := RStrip(last);
    var tail := last[|kept|..] + "\n";
    assert IsBlank(tail);
    if kept == "" {
      assert head + last + "\n" == head + tail;
      RStripBlank(head, tail);
    } else {
      RStripEnds(last);
      hide RStrip, IsBlank;
      assert head + last + "\n" == (head + kept) + tail;
      RStripSkips(head + kept, tail);
    }
  }

  lemma {:induction false} RStripPrinted(lines: seq<string>, q: string)
    requires AllOnOneLine(lines) && q in lines && IsInner(q)
    ensures q in Lines(RStrip(Printed(lines)))
  {
    var n := |lines|;
    var front, last := lines[..n - 1], lines[n - 1];
    RStripParts(last);
    hide Lines, RStrip, Printed, IsBlank;
    assert lines == front + [last];
    RStripOneMore(front, last);
    if RStrip(last) == "" {
      RStripOfInner(last);
      RStripPrinted(front, q);
    } else {
      RStripOfInner(last);
      LinesOfPrinted(front, RStrip(last));
    }
  }

  lemma RStripOfInner(line: string)
    ensures IsInner(line) ==> RStrip(line) == line
  {
  }

  /** Lines without white space at their ends are read of the stripped text. */
  lemma InnerLinesAreRead(lines: seq<string>, q: string)
    requires AllOnOneLine(lines) && q in lines && IsInner(q)
    ensures q in Lines(Strip(Printed(lines)))
  {
    var left := LStripPrinted(lines);
    RStripPrinted(left, q);
  }

  lemma FirstInner(lines: seq<string>)
    requires lines != [] && IsInner(lines[0])
    ensures LStrip(Printed(lines)) == Printed(lines)
  {
    assert Printed(lines)[0] == lines[0][0];
  }

  lemma RStripInner(front: seq<string>, last: string)
    requires IsInner(last)
    ensures RStrip(Printed(front + [last])) == Printed(front) + last
  {
    RStripOfInner(last);
    hide RStrip, Printed;
    RStripOneMore(front, last);
  }

  /** When no line has white space at an end, exactly these lines are read. */
  lemma AllInnerLinesAreRead(lines: seq<string>)
    requires AllOnOneLine(lines) && forall i | 0 <= i < |lines| :: IsInner(lines[i])
    ensures Lines(Strip(Printed(lines))) == lines
  {
    hide LStrip, RStrip, IsInner, NoBreaks;
    if lines == [] {
      NothingIsRead();
    } else {
      hide Lines, Printed;
      var n := |lines|;
      var front, last := lines[..n - 1], lines[n - 1];
      assert lines == front + [last];
      FirstInner(lines);
      RStripInner(front, last);
      assert last != "" by {
        InnerIsNonEmpty(last);
      }
      LinesOfPrinted(front, last);
    }
  }

  lemma NothingIsRead()
    ensures Lines(Strip(Printed([]))) == []
  {
  }

  lemma InnerIsNonEmpty(line: string)
    requires IsInner(line)
    ensures line != ""
  {
  }
}

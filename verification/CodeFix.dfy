/** The file that carries a code fix: its header is printed by the manifester and parsed by
    the command that applies the fix. */
module CodeFix {
  import opened Options
  import opened Text

  const MARK := "# anima:"
  const TARGET := "# anima:target"
  const STAMP := "# anima:ts"
  const DESCRIPTION := "# anima:description"
  const KIND := "# anima:type=code_fix"

  /** The file written for a fix. */
  function Printed(target: string, stamp: nat, goal: string, content: string): string {
    TARGET + "=" + target + "\n"
      + STAMP + "=" + Decimal(stamp) + "\n"
      + DESCRIPTION + "=" + goal + "\n"
      + KIND + "\n\n"
      + Strip(content)
  }

  // ---------------------------------------------------------------------------
  // Parsing
  // ---------------------------------------------------------------------------

  /** What follows the first equals sign. */
  function AfterEquals(line: string): string {
    if line == "" then "" else if line[0] == '=' then line[1..] else AfterEquals(line[1..])
  }

  datatype Header = Header(past: bool, target: Option<string>, description: string, content: seq<string>)

  /** One line of the file. */
  function WithLine(h: Header, line: string): Header {
    if !h.past && MARK <= line then
      if TARGET + "=" <= line then h.(target := Some(Strip(AfterEquals(line))))
      else if DESCRIPTION + "=" <= line then h.(description := Strip(AfterEquals(line)))
      else h
    else if !h.past && Strip(line) == "" then h.(past := true)
    else h.(past := true, content := h.content + [line])
  }

  function WithLines(h: Header, lines: seq<string>): Header
    decreases |lines|
  {
    if lines == [] then h else WithLines(WithLine(h, lines[0]), lines[1..])
  }

  function Unmarked(lines: seq<string>): seq<string> {
    if lines == [] then []
    else (if MARK <= lines[0] then [] else [lines[0]]) + Unmarked(lines[1..])
  }

  function DropNewlines(s: string): string {
    if s != "" && s[0] == '\n' then DropNewlines(s[1..]) else s
  }

  /** What a file says: the target, the description and the corrected content. */
  datatype Fix = Fix(target: Option<string>, description: string, content: string)

  /** What the parser makes of these lines. */
  function FixOf(lines: seq<string>): Fix {
    var h := WithLines(Header(false, None, "", []), lines);
    var content := Joined(h.content);
    Fix(h.target, h.description, if Strip(content) != "" then content else DropNewlines(Joined(Unmarked(lines))))
  }

  method Parse(text: string) returns (fix: Fix)
    ensures fix == FixOf(Lines(UniversalNewlines(text)))
  {
    var lines := Lines(UniversalNewlines(text));
    var target: Option<string> := None;
    var description, content, past := "", [], false;
    var i := 0;
    while i < |lines|
      invariant 0 <= i <= |lines|
      invariant WithLines(Header(past, target, description, content), lines[i..]) ==
                WithLines(Header(false, None, "", []), lines)
    {
      ghost var rest := lines[i..];
      var line := lines[i];
      assert rest[0] == line && rest[1..] == lines[i + 1..];
      if !past && MARK <= line {
        if TARGET + "=" <= line {
          target := Some(Strip(AfterEquals(line)));
        } else if DESCRIPTION + "=" <= line {
          description := Strip(AfterEquals(line));
        }
      } else if !past && Strip(line) == "" {
        past := true;
      } else {
        past := true;
        content := content + [line];
      }
      i := i + 1;
    }
    assert lines[i..] == [];
    var corrected := Joined(content);
    if Strip(corrected) == "" {
      corrected := DropNewlines(Joined(Unmarked(lines)));
    }
    fix := Fix(target, description, corrected);
  }

  lemma Regrouped(a: string, b: string, c: string, d: string)
    ensures a + b + c + d == a + (b + c + d)
  {
  }

  lemma TargetText()
    ensures TARGET + "=" == "# anima:target="
  {
  }

  lemma StampText()
    ensures "\n" + STAMP + "=" == "\n# anima:ts="
  {
  }

  lemma DescriptionText()
    ensures "\n" + DESCRIPTION + "=" == "\n# anima:description="
  {
  }

  lemma KindText()
    ensures "\n" + KIND + "\n\n" == "\n# anima:type=code_fix\n\n"
  {
  }

  /** The file as it is written, character by character. */
  lemma PrintedText(target: string, stamp: nat, goal: string, content: string)
    ensures Printed(target, stamp, goal, content) ==
      "# anima:target=" + target + "\n# anima:ts=" + Decimal(stamp) + "\n# anima:description=" + goal
        + "\n# anima:type=code_fix\n\n" + Strip(content)
  {
    hide TARGET, STAMP, DESCRIPTION, KIND, Decimal, Strip;
    TargetText();
    StampText();
    DescriptionText();
    KindText();
    var a := TARGET + "=" + target;
    Regrouped(a, "\n", STAMP, "=");
    var b := a + "\n" + STAMP + "=" + Decimal(stamp);
    Regrouped(b, "\n", DESCRIPTION, "=");
    var c := b + "\n" + DESCRIPTION + "=" + goal;
    Regrouped(c, "\n", KIND, "\n\n");
  }

  // ---------------------------------------------------------------------------
  // Round trip
  // ---------------------------------------------------------------------------

  lemma {:induction false} AfterFirstEquals(key: string, value: string)
    requires '=' !in key
    ensures AfterEquals(key + "=" + value) == value
  {
    if key == "" {
      assert (key + "=" + value)[1..] == value;
    } else {
      assert (key + "=" + value)[1..] == key[1..] + "=" + value;
      AfterFirstEquals(key[1..], value);
    }
  }

  lemma {:induction false} PastHeader(h: Header, lines: seq<string>)
    requires h.past
    ensures WithLines(h, lines) == h.(content := h.content + lines)
    decreases |lines|
  {
    if lines != [] {
      PastHeader(WithLine(h, lines[0]), lines[1..]);
      assert h.content + [lines[0]] + lines[1..] == h.content + lines;
    } else {
      assert h.content + lines == h.content;
    }
  }

  lemma {:induction false} DecimalHasNoBreaks(n: nat)
    ensures NoBreaks(Decimal(n))
  {
    if n >= 10 {
      DecimalHasNoBreaks(n / 10);
    }
  }

  const DESCRIBED := "# anima:description="

  lemma DescribedIsDescription()
    ensures DESCRIPTION + "=" == DESCRIBED
  {
  }

  /** The lines of the header before the goal. */
  function TargetLine(target: string): string {
    TARGET + "=" + target
  }

  function StampLine(stamp: nat): string {
    STAMP + "=" + Decimal(stamp)
  }

  lemma PrintedParts(target: string, stamp: nat, goal: string, content: string)
    ensures Printed(target, stamp, goal, content) ==
      TargetLine(target) + "\n" + (StampLine(stamp) + "\n"
        + (DESCRIBED + goal + "\n" + (KIND + "\n" + ("" + "\n" + Strip(content)))))
  {
    DescribedIsDescription();
    var tail := KIND + "\n" + ("" + "\n" + Strip(content));
    assert KIND + "\n\n" + Strip(content) == tail;
  }

  lemma HeaderLinesHaveNoBreaks(target: string, stamp: nat)
    requires NoBreaks(target)
    ensures NoBreaks(TargetLine(target)) && NoBreaks(StampLine(stamp)) && NoBreaks(KIND) && NoBreaks(DESCRIBED)
  {
    DecimalHasNoBreaks(stamp);
    assert NoBreaks(TARGET) && NoBreaks(STAMP);
  }

  lemma ReadLine(line: string, rest: string)
    requires NoBreaks(line)
    ensures UniversalNewlines(line + "\n" + rest) == line + "\n" + UniversalNewlines(rest)
  {
    assert IsBreak('\r');
    EndedPrefix(line, "");
    assert line + "" == line;
    ReadEnded(line, rest);
  }

  lemma LinesOfTwo(a: string, b: string, rest: string)
    requires NoBreaks(a) && NoBreaks(b)
    ensures Lines(a + "\n" + (b + "\n" + rest)) == [a, b] + Lines(rest)
  {
    LinesOfFirst(b, rest);
    LinesOfFirst(a, b + "\n" + rest);
  }

  /** The text that is read, by its parts. */
  lemma TextRead(target: string, stamp: nat, goal: string, content: string)
    requires NoBreaks(target)
    ensures UniversalNewlines(Printed(target, stamp, goal, content)) ==
      TargetLine(target) + "\n" + (StampLine(stamp) + "\n"
        + (DESCRIBED + Ended(goal) + "\n" + (KIND + "\n" + ("" + "\n" + UniversalNewlines(Strip(content))))))
  {
    HeaderLinesHaveNoBreaks(target, stamp);
    PrintedParts(target, stamp, goal, content);
    var t1 := "" + "\n" + Strip(content);
    var t2 := KIND + "\n" + t1;
    var t3 := DESCRIBED + goal + "\n" + t2;
    ReadLine(TargetLine(target), StampLine(stamp) + "\n" + t3);
    ReadLine(StampLine(stamp), t3);
    ReadEnded(DESCRIBED + goal, t2);
    assert IsBreak('\r');
    EndedPrefix(DESCRIBED, goal);
    ReadLine(KIND, t1);
    ReadLine("", Strip(content));
  }

  /** What the lines of the goal and of the content are. */
  function GoalLines(goal: string): seq<string> {
    Pieces(Ended(goal))
  }

  function BodyLines(content: string): seq<string> {
    Lines(UniversalNewlines(Strip(content)))
  }

  lemma PiecesPrefixed(d: string, s: string)
    requires NoBreaks(d)
    ensures Pieces(s) != [] && Pieces(d + s) == [d + Pieces(s)[0]] + Pieces(s)[1..]
  {
    hide FirstBreak, NoBreaks;
    FirstBreakPrefixed(d, s);
    var k := FirstBreak(s);
    if k == |s| {
      assert Pieces(s) == [s] && (d + s)[..|d| + k] == d + s;
    } else {
      assert (d + s)[..|d| + k] == d + s[..k] && (d + s)[|d| + k + 1..] == s[k + 1..];
      assert Pieces(s)[1..] == Pieces(s[k + 1..]);
    }
  }

  lemma {:induction false} FirstBreakPrefixed(d: string, s: string)
    requires NoBreaks(d)
    ensures FirstBreak(d + s) == |d| + FirstBreak(s)
  {
    if d == "" {
      assert d + s == s;
    } else {
      assert (d + s)[1..] == d[1..] + s;
      FirstBreakPrefixed(d[1..], s);
    }
  }

  /** The lines of the file that is read. */
  lemma LinesRead(target: string, stamp: nat, goal: string, content: string)
    requires NoBreaks(target)
    ensures GoalLines(goal) != []
    ensures Lines(UniversalNewlines(Printed(target, stamp, goal, content))) ==
      [TargetLine(target), StampLine(stamp)]
        + ([DESCRIBED + GoalLines(goal)[0]] + GoalLines(goal)[1..] + ([KIND, ""] + BodyLines(content)))
  {
    HeaderLinesHaveNoBreaks(target, stamp);
    TextRead(target, stamp, goal, content);
    var body := UniversalNewlines(Strip(content));
    var t2 := KIND + "\n" + ("" + "\n" + body);
    LinesOfTwo(TargetLine(target), StampLine(stamp), DESCRIBED + Ended(goal) + "\n" + t2);
    LinesOfPieces(DESCRIBED + Ended(goal), t2);
    PiecesPrefixed(DESCRIBED, Ended(goal));
    LinesOfTwo(KIND, "", body);
  }

  // ---------------------------------------------------------------------------
  // How the lines are taken
  // ---------------------------------------------------------------------------

  const START := Header(false, None, "", [])

  lemma {:induction false} WithLinesConcat(h: Header, a: seq<string>, b: seq<string>)
    ensures WithLines(h, a + b) == WithLines(WithLines(h, a), b)
    decreases |a|
  {
    if a == [] {
      assert a + b == b;
    } else {
      assert (a + b)[1..] == a[1..] + b;
      WithLinesConcat(WithLine(h, a[0]), a[1..], b);
    }
  }

  lemma WithTwoLines(h: Header, a: string, b: string)
    ensures WithLines(h, [a, b]) == WithLine(WithLine(h, a), b)
  {
    assert [a, b][1..] == [b] && [b][1..] == [];
    assert WithLines(WithLine(h, a), [b]) == WithLine(WithLine(h, a), b);
  }

  lemma WithThreeLines(h: Header, a: string, b: string, c: string)
    ensures WithLines(h, [a, b, c]) == WithLine(WithLine(WithLine(h, a), b), c)
  {
    assert [a, b, c][1..] == [b, c];
    WithTwoLines(WithLine(h, a), b, c);
  }

  lemma MarkedLines(target: string, stamp: nat, first: string)
    ensures MARK <= TargetLine(target) && MARK <= StampLine(stamp) && MARK <= DESCRIBED + first && MARK <= KIND
    ensures !(TARGET + "=" <= StampLine(stamp)) && !(DESCRIPTION + "=" <= StampLine(stamp))
    ensures !(TARGET + "=" <= DESCRIBED + first) && !(TARGET + "=" <= KIND) && !(DESCRIPTION + "=" <= KIND)
  {
    assert StampLine(stamp)[|MARK| + 1] == 's' && (DESCRIBED + first)[|MARK|] == 'd' && KIND[|MARK| + 1] == 'y';
  }

  /** The target, the time and the first line of the goal are read off. */
  lemma HeaderRead(target: string, stamp: nat, first: string)
    ensures WithLines(START, [TargetLine(target), StampLine(stamp), DESCRIBED + first]) ==
      Header(false, Some(Strip(target)), Strip(first), [])
  {
    MarkedLines(target, stamp, first);
    AfterFirstEquals(TARGET, target);
    AfterFirstEquals(DESCRIPTION, first);
    DescribedIsDescription();
    WithThreeLines(START, TargetLine(target), StampLine(stamp), DESCRIBED + first);
  }

  /** The rest of the header ends it, unless the goal has done so already. */
  lemma HeaderEnds(h: Header, body: seq<string>)
    ensures WithLines(h, [KIND, ""] + body) ==
      if h.past then h.(content := h.content + ([KIND, ""] + body)) else h.(past := true, content := h.content + body)
  {
    if h.past {
      PastHeader(h, [KIND, ""] + body);
    } else {
      MarkedLines("", 0, "");
      WithLinesConcat(h, [KIND, ""], body);
      WithTwoLines(h, KIND, "");
      PastHeader(h.(past := true), body);
    }
  }

  /** What the parser knows after the lines of the goal. */
  function AfterGoal(target: string, goal: string): Header
    requires GoalLines(goal) != []
  {
    WithLines(Header(false, Some(Strip(target)), Strip(GoalLines(goal)[0]), []), GoalLines(goal)[1..])
  }

  lemma Regroup(a: string, b: string, c: string, more: seq<string>, tail: seq<string>)
    ensures [a, b] + ([c] + more + tail) == [a, b, c] + (more + tail)
  {
  }

  lemma HeaderOfPrinted(target: string, stamp: nat, goal: string, content: string)
    requires NoBreaks(target)
    ensures GoalLines(goal) != []
    ensures WithLines(START, Lines(UniversalNewlines(Printed(target, stamp, goal, content)))) ==
      WithLines(AfterGoal(target, goal), [KIND, ""] + BodyLines(content))
  {
    LinesRead(target, stamp, goal, content);
    hide Lines, UniversalNewlines, Printed, GoalLines, BodyLines, TargetLine, StampLine, WithLines, Strip;
    var q := GoalLines(goal);
    var head := [TargetLine(target), StampLine(stamp), DESCRIBED + q[0]];
    var tail := [KIND, ""] + BodyLines(content);
    Regroup(TargetLine(target), StampLine(stamp), DESCRIBED + q[0], q[1..], tail);
    WithLinesConcat(START, head, q[1..] + tail);
    HeaderRead(target, stamp, q[0]);
    WithLinesConcat(WithLines(START, head), q[1..], tail);
  }

  // ---------------------------------------------------------------------------
  // What can be found
  // ---------------------------------------------------------------------------

  /** Whatever the lines, the target and the description that are found are stripped and on
      one line, and the content has no line breaks but newlines. */
  predicate Plain(h: Header) {
    && (h.target.Some? ==> IsStripped(h.target.value) && NoBreaks(h.target.value))
    && NoBreaks(h.description)
    && forall i | 0 <= i < |h.content| :: NoBreaks(h.content[i])
  }

  lemma StripKeepsNoBreaks(s: string)
    requires NoBreaks(s)
    ensures NoBreaks(Strip(s))
  {
    LStripStarts(s);
    RStripEnds(LStrip(s));
  }

  lemma {:induction false} AfterEqualsHasNoBreaks(s: string)
    requires NoBreaks(s)
    ensures NoBreaks(AfterEquals(s))
  {
    if s != "" {
      AfterEqualsHasNoBreaks(s[1..]);
    }
  }

  lemma {:induction false} WithLinesPlain(h: Header, lines: seq<string>)
    requires Plain(h) && forall i | 0 <= i < |lines| :: NoBreaks(lines[i])
    ensures Plain(WithLines(h, lines))
    decreases |lines|
  {
    if lines != [] {
      AfterEqualsHasNoBreaks(lines[0]);
      StripKeepsNoBreaks(AfterEquals(lines[0]));
      StripIsStripped(AfterEquals(lines[0]));
      WithLinesPlain(WithLine(h, lines[0]), lines[1..]);
    }
  }

  lemma {:induction false} UnmarkedPlain(lines: seq<string>)
    requires forall i | 0 <= i < |lines| :: NoBreaks(lines[i])
    ensures forall i | 0 <= i < |Unmarked(lines)| :: NoBreaks(Unmarked(lines)[i])
  {
    if lines != [] {
      UnmarkedPlain(lines[1..]);
    }
  }

  lemma {:induction false} DropNewlinesPlain(s: string)
    requires OnlyNewlines(s)
    ensures OnlyNewlines(DropNewlines(s))
  {
    if s != "" && s[0] == '\n' {
      DropNewlinesPlain(s[1..]);
    }
  }

  lemma FixIsPlain(text: string)
    ensures var fix := FixOf(Lines(text));
      && (fix.target.Some? ==> IsStripped(fix.target.value) && NoBreaks(fix.target.value))
      && NoBreaks(fix.description)
      && OnlyNewlines(fix.content)
  {
    var lines := Lines(text);
    LinesHaveNoBreaks(text);
    WithLinesPlain(START, lines);
    JoinedHasOnlyNewlines(WithLines(START, lines).content);
    UnmarkedPlain(lines);
    JoinedHasOnlyNewlines(Unmarked(lines));
    DropNewlinesPlain(Joined(Unmarked(lines)));
  }

  // ---------------------------------------------------------------------------
  // A goal on one line
  // ---------------------------------------------------------------------------

  lemma UnmarkedFirst(line: string, rest: seq<string>)
    ensures Unmarked([line] + rest) == (if MARK <= line then [] else [line]) + Unmarked(rest)
  {
    assert ([line] + rest)[1..] == rest;
  }

  /** For blank content the parser falls back on the lines without the mark, and there is
      only the empty one. */
  lemma BlankFallback(target: string, stamp: nat, first: string)
    ensures Unmarked([TargetLine(target), StampLine(stamp), DESCRIBED + first, KIND, ""]) == [""]
  {
    var a, b, c := TargetLine(target), StampLine(stamp), DESCRIBED + first;
    MarkedLines(target, stamp, first);
    assert [a, b, c, KIND, ""] == [a] + [b, c, KIND, ""] && [b, c, KIND, ""] == [b] + [c, KIND, ""];
    assert [c, KIND, ""] == [c] + [KIND, ""] && [KIND, ""] == [KIND] + [""] && [""] == [""] + [];
    UnmarkedFirst(a, [b, c, KIND, ""]);
    UnmarkedFirst(b, [c, KIND, ""]);
    UnmarkedFirst(c, [KIND, ""]);
    UnmarkedFirst(KIND, [""]);
    UnmarkedFirst("", []);
  }

  lemma OneGoalLine(goal: string)
    requires OnOneLine(goal)
    ensures GoalLines(goal) == [Ended(goal)] && Strip(Ended(goal)) == Strip(goal)
  {
    EndedOnOneLine(goal);
    var e := Ended(goal);
    assert FirstBreak(e) == |e|;
    OneLineStripped(goal);
    StripOfEnded(goal);
  }

  lemma OneLineStripped(s: string)
    requires OnOneLine(s)
    ensures NoBreaks(Strip(s))
  {
    if NoBreaks(s) {
      StripKeepsNoBreaks(s);
    } else {
      var front := s[..|s| - 1];
      var a, b := StripParts(front);
      assert IsSpace('\r');
      StripKeepsNoBreaks(front);
      assert s == front + ['\r'];
      if Strip(front) == "" {
        assert a + Strip(front) + b == a + b;
        StripOfBlank(s);
      } else {
        StripIsStripped(front);
        assert s == a + Strip(front) + (b + ['\r']);
        StripSkips(a, Strip(front), b + ['\r']);
      }
    }
  }

  lemma BodyRead(content: string)
    requires OnlyNewlines(Strip(content))
    ensures BodyLines(content) == Lines(Strip(content)) && Joined(BodyLines(content)) == Strip(content)
  {
    UniversalNewlinesIdentity(Strip(content));
    StripIsStripped(content);
    JoinedLines(Strip(content));
  }

  lemma OneLineComesBack(target: string, stamp: nat, goal: string, content: string)
    requires NoBreaks(target) && OnOneLine(goal) && OnlyNewlines(Strip(content))
    ensures FixOf(Lines(UniversalNewlines(Printed(target, stamp, goal, content)))) ==
      Fix(Some(Strip(target)), Strip(goal), Strip(content))
  {
    var lines := Lines(UniversalNewlines(Printed(target, stamp, goal, content)));
    HeaderOfPrinted(target, stamp, goal, content);
    OneGoalLine(goal);
    HeaderEnds(AfterGoal(target, goal), BodyLines(content));
    BodyRead(content);
    assert [] + BodyLines(content) == BodyLines(content);
    StripIsStripped(content);
    StripOfStripped(Strip(content));
    if Strip(content) == "" {
      LinesRead(target, stamp, goal, content);
      FallbackContent(target, stamp, Ended(goal), lines);
    }
  }

  lemma FallbackContent(target: string, stamp: nat, first: string, lines: seq<string>)
    requires lines == [TargetLine(target), StampLine(stamp)] + ([DESCRIBED + first] + [] + ([KIND, ""] + []))
    ensures DropNewlines(Joined(Unmarked(lines))) == ""
  {
    assert lines == [TargetLine(target), StampLine(stamp), DESCRIBED + first, KIND, ""];
    BlankFallback(target, stamp, first);
  }

  // ---------------------------------------------------------------------------
  // A goal that reaches over a line break
  // ---------------------------------------------------------------------------

  lemma {:induction false} JoinedLonger(a: seq<string>, b: seq<string>)
    ensures |Joined(a + b)| >= |Joined(a)| + |Joined(b)|
  {
    if a == [] {
      assert a + b == b;
    } else if |a| == 1 {
      assert (a + b)[1..] == b;
    } else {
      assert (a + b)[1..] == a[1..] + b;
      JoinedLonger(a[1..], b);
    }
  }

  lemma {:induction false} JoinedNotBlank(lines: seq<string>, i: nat)
    requires i < |lines| && !IsBlank(lines[i])
    ensures !IsBlank(Joined(lines))
  {
    if |lines| > 1 {
      var rest := Joined(lines[1..]);
      if i == 0 {
        var k :| 0 <= k < |lines[0]| && !IsSpace(lines[0][k]);
        assert Joined(lines)[k] == lines[0][k];
      } else {
        JoinedNotBlank(lines[1..], i - 1);
        var k :| 0 <= k < |rest| && !IsSpace(rest[k]);
        assert Joined(lines)[|lines[0]| + 1 + k] == rest[k];
      }
    }
  }

  lemma NotBlankStrips(s: string)
    requires !IsBlank(s)
    ensures Strip(s) != ""
  {
    var a, b := StripParts(s);
    assert a + "" + b == a + b;
  }

  lemma LongerByHeader(before: seq<string>, body: seq<string>)
    ensures |Joined(before + ([KIND, ""] + body))| > |Joined(body)|
  {
    assert |Joined([KIND, ""])| > 0;
    hide Joined;
    JoinedLonger([KIND, ""], body);
    JoinedLonger(before, [KIND, ""] + body);
  }

  lemma HeaderIsNotBlank(before: seq<string>, body: seq<string>)
    ensures Strip(Joined(before + ([KIND, ""] + body))) != ""
  {
    var taken := before + ([KIND, ""] + body);
    assert KIND[0] == '#' && taken[|before|] == KIND;
    hide Joined, Strip;
    JoinedNotBlank(taken, |before|);
    NotBlankStrips(Joined(taken));
  }

  /** When the goal has ended the header, the content is too long by the rest of it. */
  lemma SpilledContent(target: string, stamp: nat, goal: string, content: string)
    requires NoBreaks(target) && GoalLines(goal) != [] && AfterGoal(target, goal).past
    ensures var fix := FixOf(Lines(UniversalNewlines(Printed(target, stamp, goal, content))));
      && fix.content == Joined(AfterGoal(target, goal).content + ([KIND, ""] + BodyLines(content)))
      && fix.content != Strip(content)
  {
    hide Joined, Lines, UniversalNewlines, Printed, Strip, GoalLines, WithLines, AfterGoal, BodyLines;
    var h, body := AfterGoal(target, goal), BodyLines(content);
    HeaderOfPrinted(target, stamp, goal, content);
    HeaderEnds(h, body);
    HeaderIsNotBlank(h.content, body);
    if Joined(h.content + ([KIND, ""] + body)) == Strip(content) {
      FixIsPlain(UniversalNewlines(Printed(target, stamp, goal, content)));
      BodyRead(content);
      LongerByHeader(h.content, body);
    }
  }

  /** The header goes on only over marked lines. */
  lemma {:induction false} StillHeader(h: Header, lines: seq<string>)
    requires !WithLines(h, lines).past
    ensures !h.past && forall i | 0 <= i < |lines| :: MARK <= lines[i]
    decreases |lines|
  {
    if lines != [] {
      StillHeader(WithLine(h, lines[0]), lines[1..]);
      assert forall i | 1 <= i < |lines| :: lines[i] == lines[1..][i - 1];
    }
  }

  lemma {:induction false} PiecesPlain(s: string)
    ensures forall i | 0 <= i < |Pieces(s)| :: NoBreaks(Pieces(s)[i])
  {
    var k := FirstBreak(s);
    if k < |s| {
      PiecesPlain(s[k + 1..]);
    } else {
      assert s[..k] == s;
    }
  }

  /** A break that something other than white space follows comes before what is stripped. */
  lemma BreakIsBefore(a: string, e: string, b: string, k: nat)
    requires IsBlank(a) && IsBlank(b) && NoBreaks(e) && k + 1 < |a| + |e| + |b|
    requires IsBreak((a + e + b)[k]) && !IsSpace((a + e + b)[k + 1])
    ensures |a| == k + 1 && e != ""
  {
    var s := a + e + b;
    assert forall i | 0 <= i < |a| :: s[i] == a[i];
    assert forall i | |a| <= i < |a| + |e| :: s[i] == e[i - |a|];
    assert forall i | |a| + |e| <= i < |s| :: s[i] == b[i - |a| - |e|];
  }

  /** A text whose stripped part has no break, and whose second line does not begin with
      white space, is blank up to there, and ends there. */
  lemma SecondLineIsAll(s: string)
    requires NoBreaks(Strip(s)) && |Pieces(s)| >= 2 && Pieces(s)[1] != "" && !IsSpace(Pieces(s)[1][0])
    ensures IsBlank(Pieces(s)[0]) && Strip(s) <= s[|Pieces(s)[0]| + 1..]
    ensures IsBlank(s[|Pieces(s)[0]| + 1..][|Strip(s)|..]) && Strip(s) != ""
  {
    hide FirstBreak, Pieces, Strip, IsSpace, IsBreak, NoBreaks, IsBlank;
    var k := FirstBreak(s);
    var a, b := StripParts(s);
    RestBegins(s);
    assert s[k + 1] == s[k + 1..][0];
    BreakIsBefore(a, Strip(s), b, k);
    assert s[..k] == a[..k] && s[k + 1..] == Strip(s) + b;
    BlankPrefix(a, k);
    assert (Strip(s) + b)[|Strip(s)|..] == b;
  }

  lemma BlankPrefix(s: string, n: nat)
    requires IsBlank(s) && n <= |s|
    ensures IsBlank(s[..n])
  {
  }

  /** A line after a break in the white space at the end begins with white space. */
  lemma LaterLinesAreBlank(e: string, b: string)
    requires NoBreaks(e) && IsBlank(b)
    ensures |Pieces(e + b)| >= 2 && Pieces(e + b)[1] != "" ==> IsSpace(Pieces(e + b)[1][0])
  {
    var s := e + b;
    assert forall i | 0 <= i < |e| :: s[i] == e[i];
    assert forall i | |e| <= i < |s| :: s[i] == b[i - |e|];
    if |Pieces(s)| >= 2 && Pieces(s)[1] != "" {
      RestBegins(s);
    }
  }

  lemma RestBegins(s: string)
    requires |Pieces(s)| >= 2 && Pieces(s)[1] != ""
    ensures var k := FirstBreak(s);
      && k < |s| && Pieces(s)[0] == s[..k] && Pieces(s)[1..] == Pieces(s[k + 1..])
      && s[k + 1..] != "" && s[k + 1..][0] == Pieces(s)[1][0]
  {
    var k := FirstBreak(s);
    var rest := s[k + 1..];
    assert Pieces(s)[1] == Pieces(rest)[0];
    assert Pieces(rest)[0] == rest[..FirstBreak(rest)] by {
      assert FirstBreak(rest) == |rest| ==> rest[..FirstBreak(rest)] == rest;
    }
  }

  /** White space in the middle of what a stripped value would have to be. */
  lemma StripIsShort(s: string, n: nat)
    requires n <= |s| && IsBlank(s[n..])
    ensures |Strip(s)| <= n
  {
    var a, b := StripParts(s);
    var e := Strip(s);
    assert forall i | n <= i < |s| :: s[i] == s[n..][i - n];
    if e != "" {
      StripIsStripped(s);
      assert s[|a| + |e| - 1] == e[|e| - 1];
    }
  }

  lemma BlankAt(s: string, n: nat, i: nat)
    requires n <= i < |s| && IsBlank(s[n..])
    ensures IsSpace(s[i])
  {
    assert s[i] == s[n..][i - n];
  }

  /** A marked line never describes itself. */
  lemma NotItsOwnDescription(line: string, e: string)
    requires DESCRIBED <= line && e <= line && IsBlank(line[|e|..]) && e != ""
    ensures Strip(line[|DESCRIBED|..]) != e
  {
    var z := line[|DESCRIBED|..];
    var n := |DESCRIBED|;
    assert line[n - 1] == DESCRIBED[n - 1] == '=';
    if |e| < n {
      BlankAt(line, |e|, n - 1);
    } else {
      assert z[|e| - n..] == line[|e|..];
      StripIsShort(z, |e| - n);
    }
  }

  lemma PiecesOfStripped(goal: string)
    requires NoBreaks(Strip(goal)) && |GoalLines(goal)| >= 2
    requires forall i | 1 <= i < |GoalLines(goal)| :: MARK <= GoalLines(goal)[i]
    ensures var q := GoalLines(goal);
      |q| == 2 && IsBlank(q[0]) && Strip(goal) != "" && Strip(goal) <= q[1] && IsBlank(q[1][|Strip(goal)|..])
  {
    var s, q := Ended(goal), GoalLines(goal);
    StripOfEnded(goal);
    assert MARK <= q[1] && MARK[0] == '#';
    hide Strip, Ended, IsBlank, NoBreaks;
    SecondLineIsAll(s);
    var rest := s[|q[0]| + 1..];
    RestBegins(s);
    assert q[1..] == Pieces(rest);
    var e := Strip(goal);
    hide Pieces, GoalLines;
    assert rest == e + rest[|e|..];
    ThirdIsMarked(q);
    OnePiece(rest);
    LaterLinesAreBlank(e, rest[|e|..]);
  }

  lemma ThirdIsMarked(q: seq<string>)
    requires |q| >= 2 && forall i | 1 <= i < |q| :: MARK <= q[i]
    ensures |q[1..]| > 1 ==> q[1..][1] != "" && q[1..][1][0] == '#'
  {
    assert MARK != "" && MARK[0] == '#';
  }

  lemma OnePiece(s: string)
    ensures |Pieces(s)| == 1 ==> Pieces(s) == [s]
  {
  }

  /** When the goal has not ended the header, its description is not the goal. */
  lemma LostDescription(target: string, goal: string)
    requires |GoalLines(goal)| >= 2 && !AfterGoal(target, goal).past
    requires NoBreaks(AfterGoal(target, goal).description)
    ensures AfterGoal(target, goal).description != Strip(goal)
  {
    var q := GoalLines(goal);
    var h := Header(false, Some(Strip(target)), Strip(q[0]), []);
    hide GoalLines, Strip;
    StillHeader(h, q[1..]);
    assert forall i | 1 <= i < |q| :: q[i] == q[1..][i - 1];
    if AfterGoal(target, goal).description == Strip(goal) {
      PiecesOfStripped(goal);
      StripOfBlank(q[0]);
      assert q[1..] == [q[1]] && [q[1]][1..] == [];
      assert AfterGoal(target, goal) == WithLine(h, q[1]);
      DescribedIsDescription();
      if DESCRIBED <= q[1] {
        assert q[1] == DESCRIPTION + "=" + q[1][|DESCRIBED|..];
        AfterFirstEquals(DESCRIPTION, q[1][|DESCRIBED|..]);
        NotItsOwnDescription(q[1], Strip(goal));
      }
    }
  }

  /** A goal that reaches over a line break does not come back with its content. */
  lemma LongGoalIsLost(target: string, stamp: nat, goal: string, content: string)
    requires NoBreaks(target) && !OnOneLine(goal)
    ensures var fix := FixOf(Lines(UniversalNewlines(Printed(target, stamp, goal, content))));
      fix.description != Strip(goal) || fix.content != Strip(content)
  {
    var h := AfterGoalOf(target, stamp, goal, content);
    if h.past {
      SpilledContent(target, stamp, goal, content);
    } else {
      HeaderOfPrinted(target, stamp, goal, content);
      HeaderEnds(h, BodyLines(content));
      FixIsPlain(UniversalNewlines(Printed(target, stamp, goal, content)));
      LostDescription(target, goal);
    }
  }

  lemma AfterGoalOf(target: string, stamp: nat, goal: string, content: string) returns (h: Header)
    requires NoBreaks(target) && !OnOneLine(goal)
    ensures |GoalLines(goal)| >= 2 && h == AfterGoal(target, goal)
  {
    EndedOnOneLine(goal);
    TwoPieces(Ended(goal));
    h := AfterGoal(target, goal);
  }

  lemma TwoPieces(s: string)
    ensures |Pieces(s)| >= 2 || NoBreaks(s)
  {
    assert s[..|s|] == s;
  }

  /** What is printed is read back — the target itself, the goal and the content without
      surrounding white space, even blank content or content that looks like a header —
      exactly when the target is on one line and without surrounding white space, the goal
      is on one line but for a carriage return at its end, and the content has no line
      breaks but newlines. */
  lemma RoundTrip(target: string, stamp: nat, goal: string, content: string)
    ensures
      FixOf(Lines(UniversalNewlines(Printed(target, stamp, goal, content)))) ==
        Fix(Some(target), Strip(goal), Strip(content))
      <==> NoBreaks(target) && IsStripped(target) && OnOneLine(goal) && OnlyNewlines(Strip(content))
  {
    var text := Printed(target, stamp, goal, content);
    FixIsPlain(UniversalNewlines(text));
    if NoBreaks(target) && IsStripped(target) {
      StripOfStripped(target);
      if !OnOneLine(goal) {
        LongGoalIsLost(target, stamp, goal, content);
      } else if OnlyNewlines(Strip(content)) {
        OneLineComesBack(target, stamp, goal, content);
      }
    }
  }

  /** The second line of a goal, when it has no mark and is not blank, opens the content,
      before the rest of the header, and the description is the first line only. */
  lemma GoalSpills(target: string, stamp: nat, goal: string, content: string)
    requires NoBreaks(target) && |GoalLines(goal)| >= 2
    requires !(MARK <= GoalLines(goal)[1]) && Strip(GoalLines(goal)[1]) != ""
    ensures FixOf(Lines(UniversalNewlines(Printed(target, stamp, goal, content)))) ==
      Fix(Some(Strip(target)), Strip(GoalLines(goal)[0]),
          Joined(GoalLines(goal)[1..] + ([KIND, ""] + BodyLines(content))))
  {
    var q := GoalLines(goal);
    var h := Header(false, Some(Strip(target)), Strip(q[0]), []);
    assert q[1..] == [q[1]] + q[2..];
    FirstLine(h, q[1], q[2..]);
    PastHeader(WithLine(h, q[1]), q[2..]);
    assert AfterGoal(target, goal).content == q[1..];
    HeaderOfPrinted(target, stamp, goal, content);
    HeaderEnds(AfterGoal(target, goal), BodyLines(content));
    SpilledContent(target, stamp, goal, content);
  }

  lemma FirstLine(h: Header, line: string, rest: seq<string>)
    ensures WithLines(h, [line] + rest) == WithLines(WithLine(h, line), rest)
  {
    assert ([line] + rest)[1..] == rest;
  }

  predicate AllMarked(lines: seq<string>) {
    forall i | 0 <= i < |lines| :: MARK <= lines[i]
  }

  /** White space only. */
  predicate AllBlank(lines: seq<string>) {
    forall i | 0 <= i < |lines| :: IsBlank(lines[i]) && !(MARK <= lines[i])
  }

  lemma {:induction false} MarkedAdds(h: Header, lines: seq<string>)
    requires !h.past && AllMarked(lines)
    ensures !WithLines(h, lines).past && WithLines(h, lines).content == h.content
    decreases |lines|
  {
    if lines != [] {
      MarkedAdds(WithLine(h, lines[0]), lines[1..]);
    }
  }

  lemma {:induction false} UnmarkedAfter(marked: seq<string>, lines: seq<string>)
    requires AllMarked(marked) && forall i | 0 <= i < |lines| :: !(MARK <= lines[i])
    ensures Unmarked(marked + lines) == lines
    decreases |marked|, |lines|
  {
    if marked != [] {
      assert (marked + lines)[1..] == marked[1..] + lines;
      UnmarkedAfter(marked[1..], lines);
    } else if lines != [] {
      assert marked + lines == lines && [] + lines[1..] == lines[1..];
      UnmarkedAfter([], lines[1..]);
    }
  }

  lemma {:induction false} JoinedBlank(lines: seq<string>)
    requires AllBlank(lines)
    ensures IsBlank(Joined(lines))
  {
    if lines != [] {
      JoinedBlank(lines[1..]);
    }
  }

  /** The fallback, for a file with nothing but white space after its header: the content is
      that white space, without the newlines it begins with. */
  lemma NothingAfterHeader(marked: seq<string>, blank: seq<string>)
    requires AllMarked(marked) && AllBlank(blank)
    ensures FixOf(marked + blank).content == DropNewlines(Joined(blank))
  {
    UnmarkedAfter(marked, blank);
    MarkedAdds(START, marked);
    WithLinesConcat(START, marked, blank);
    var h := WithLines(START, marked);
    var rest := if blank == [] then [] else blank[1..];
    if blank != [] {
      StripOfBlank(blank[0]);
      PastHeader(WithLine(h, blank[0]), rest);
      assert [] + rest == rest;
    }
    assert WithLines(START, marked + blank).content == rest;
    JoinedBlank(rest);
    StripOfBlank(Joined(rest));
  }

  /** A line that is not marked ends the header: it and all after it are the content, unless
      they are white space only. */
  lemma ContentAfterHeader(marked: seq<string>, line: string, rest: seq<string>)
    requires AllMarked(marked) && !(MARK <= line) && !IsBlank(line)
    ensures FixOf(marked + [line] + rest).content == Joined([line] + rest)
  {
    MarkedAdds(START, marked);
    var h := WithLines(START, marked);
    assert marked + [line] + rest == marked + ([line] + rest);
    WithLinesConcat(START, marked, [line] + rest);
    NotBlankStrips(line);
    FirstLine(h, line, rest);
    assert [line][1..] == [] && WithLines(h, [line]) == WithLine(h, line);
    PastHeader(WithLine(h, line), rest);
    assert [] + [line] + rest == [line] + rest;
    JoinedNotBlank([line] + rest, 0);
    NotBlankStrips(Joined([line] + rest));
  }

  /** Past the header, or at a line that ends it, target and description are settled. */
  lemma {:induction false} SettledByHeader(h: Header, lines: seq<string>)
    requires h.past || lines == [] || !(MARK <= lines[0])
    ensures WithLines(h, lines).target == h.target && WithLines(h, lines).description == h.description
    decreases |lines|
  {
    if lines != [] {
      SettledByHeader(WithLine(h, lines[0]), lines[1..]);
    }
  }

  predicate NoneBegins(lines: seq<string>, key: string) {
    forall i | 0 <= i < |lines| :: !(key <= lines[i])
  }

  lemma {:induction false} OtherLinesKeep(h: Header, lines: seq<string>)
    requires !h.past && AllMarked(lines)
    ensures NoneBegins(lines, TARGET + "=") ==> WithLines(h, lines).target == h.target
    ensures NoneBegins(lines, DESCRIPTION + "=") ==> WithLines(h, lines).description == h.description
    decreases |lines|
  {
    if lines != [] {
      assert forall i | 1 <= i < |lines| :: lines[1..][i - 1] == lines[i];
      OtherLinesKeep(WithLine(h, lines[0]), lines[1..]);
    }
  }

  /** The header line by line: `before`, one line, and `after`, up to a line that is not marked. */
  lemma HeaderSplit(before: seq<string>, line: string, after: seq<string>, rest: seq<string>) returns (h: Header)
    requires AllMarked(before) && MARK <= line && AllMarked(after)
    requires rest == [] || !(MARK <= rest[0])
    ensures !h.past && h == WithLines(START, before)
    ensures var fix := FixOf(before + [line] + after + rest);
      var last := WithLines(WithLine(h, line), after);
      !last.past && fix.target == last.target && fix.description == last.description
  {
    h := WithLines(START, before);
    MarkedAdds(START, before);
    var h1 := WithLine(h, line);
    MarkedAdds(h1, after);
    assert before + [line] + after + rest == before + ([line] + (after + rest));
    WithLinesConcat(START, before, [line] + (after + rest));
    FirstLine(h, line, after + rest);
    assert [line][1..] == [] && WithLines(h, [line]) == h1;
    WithLinesConcat(h1, after, rest);
    SettledByHeader(WithLines(h1, after), rest);
  }

  /** Of several target lines in the header the last counts, whatever comes after the header. */
  lemma LastTargetCounts(before: seq<string>, value: string, after: seq<string>, rest: seq<string>)
    requires AllMarked(before) && AllMarked(after) && NoneBegins(after, "# anima:target=")
    requires rest == [] || !(MARK <= rest[0])
    ensures FixOf(before + ["# anima:target=" + value] + after + rest).target == Some(Strip(value))
  {
    TargetText();
    MarkedLines(value, 0, "");
    AfterFirstEquals(TARGET, value);
    var h := HeaderSplit(before, TARGET + "=" + value, after, rest);
    OtherLinesKeep(WithLine(h, TARGET + "=" + value), after);
  }

  /** So it is of description lines. */
  lemma LastDescriptionCounts(before: seq<string>, value: string, after: seq<string>, rest: seq<string>)
    requires AllMarked(before) && AllMarked(after) && NoneBegins(after, "# anima:description=")
    requires rest == [] || !(MARK <= rest[0])
    ensures FixOf(before + ["# anima:description=" + value] + after + rest).description == Strip(value)
  {
    DescribedIsDescription();
    MarkedLines("", 0, value);
    AfterFirstEquals(DESCRIPTION, value);
    var h := HeaderSplit(before, DESCRIBED + value, after, rest);
    OtherLinesKeep(WithLine(h, DESCRIBED + value), after);
  }

  /** Without such a line there is no target, and without the other no description. */
  lemma MissingLines(header: seq<string>, rest: seq<string>)
    requires AllMarked(header) && (rest == [] || !(MARK <= rest[0]))
    ensures NoneBegins(header, "# anima:target=") ==> FixOf(header + rest).target == None
    ensures NoneBegins(header, "# anima:description=") ==> FixOf(header + rest).description == ""
  {
    TargetText();
    DescribedIsDescription();
    MarkedAdds(START, header);
    OtherLinesKeep(START, header);
    WithLinesConcat(START, header, rest);
    SettledByHeader(WithLines(START, header), rest);
  }
}

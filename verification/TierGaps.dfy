/** Calls that get past the boundary of the worktree: each lemma names the repository
    before and after a tool, and shows answers of git with which a path the wrapper
    should have guarded does not come back. */
module TierGaps {
  import opened GitModel
  import opened Options
  import opened Restoring
  import opened TierEnforcement
  import Strings = Text

  // ---------------------------------------------------------------------------
  // Git's answers exist
  // ---------------------------------------------------------------------------

  function Quoted(p: Path): string {
    if IsOrdinary(p) then p else "\"\""
  }

  /** Git with a chosen answer in one state and a chosen diff of one pair of trees; `locked`
      are the names for which the restoring command fails. */
  ghost function Answering(r: Repo, entries: Option<seq<Entry>>, a: Tree, b: Tree, names: seq<Path>,
                           locked: set<Path>): Git
  {
    Git(x => if x == r then entries else Some(Listing(x)),
        (x, y) => Some(if x == a && y == b then names else Ordered(ChangedPaths(x, y))),
        p => Quoted(p),
        Restorer((s, p) => Glob(s, p), s => s !in locked))
  }

  lemma AnsweringIsFaithful(r: Repo, entries: Option<seq<Entry>>, a: Tree, b: Tree, names: seq<Path>,
                            locked: set<Path>)
    requires (entries.Some? ==> Lists(entries.value, r)) && NamesDiff(names, a, b)
    ensures Faithful(Answering(r, entries, a, b, names, locked))
  {
    QuotesAsGit();
    hide Lists, Listing, NamesDiff, Glob, Quoted, IsOrdinary, IsQuoted;
    forall x ensures Lists(Listing(x), x) {
      ListingLists(x);
    }
    forall x, y ensures NamesDiff(Ordered(ChangedPaths(x, y)), x, y) {
      ChangedIsNamed(x, y);
    }
  }

  lemma QuotesAsGit()
    ensures forall p :: if IsOrdinary(p) then Quoted(p) == p else IsQuoted(Quoted(p))
  {
    assert IsQuoted("\"\"");
  }

  lemma ChangedIsNamed(a: Tree, b: Tree)
    ensures NamesDiff(Ordered(ChangedPaths(a, b)), a, b)
  {
  }

  /** For some answers of git the wrapper leaves this path, clean before, not as it was. */
  ghost predicate GetsPast(before: Repo, tool: Repo, p: Path) {
    exists git :: GetsPastWith(git, before, tool, p)
  }

  ghost predicate GetsPastWith(git: Git, before: Repo, tool: Repo, p: Path) {
    && Faithful(git) && StoreGrows(before, tool)
    && !Dirty(before, p) && !Kept(before, Enforced(git, before, tool), p)
  }

  // ---------------------------------------------------------------------------
  // A commit
  // ---------------------------------------------------------------------------

  const KERNEL: Path := "anima/kernel/x.py"

  lemma DiffersAt(p: Path, prefix: Path, k: nat)
    requires k < |p| && k < |prefix| - 1 && p[k] != prefix[k]
    ensures !Covers(prefix, p)
  {
    assert prefix[..|prefix| - 1][k] == prefix[k];
  }

  lemma ModulePrefix(m: string)
    requires m in TIER1_MODULES
    ensures var prefix := "anima/" + m + "/"; |prefix| > 8 && prefix[0] == 'a' && prefix[6] != 'k'
  {
    assert |m| > 1 && m[0] != 'k';
    assert ("anima/" + m + "/")[6] == m[0];
  }

  lemma PrefixesMeanThis(prefix: Path)
    requires prefix in Tier1Prefixes()
    ensures |prefix| > 4 && prefix[0] in {'a', 't', 'd'}
    ensures prefix[0] == 'a' ==> |prefix| > 8 && prefix[6] != 'k'
  {
    if m :| m in TIER1_MODULES && prefix == "anima/" + m + "/" {
      ModulePrefix(m);
    } else {
      assert prefix == "tests/" || prefix == "docs/";
    }
  }

  lemma KernelIsTier0()
    ensures IsPathName(KERNEL) && !InTier1(KERNEL)
  {
    assert NoNul(KERNEL);
    assert KERNEL[0] == 'a' && KERNEL[6] == 'k' && |KERNEL| == 17;
    hide Tier1Prefixes, Covers, KERNEL;
    forall prefix | prefix in Tier1Prefixes() ensures !Covers(prefix, KERNEL) {
      PrefixesMeanThis(prefix);
      DiffersAt(KERNEL, prefix, if prefix[0] == 'a' then 6 else 0);
    }
  }

  /** The line that marks a cut output is no allowlisted path, so a cut diff shows a
      violation. */
  lemma CutDiffShowsTier0()
    ensures !InTier1(CUT_MARK[1..])
  {
    var mark := CUT_MARK[1..];
    assert mark[0] == '[';
    hide Tier1Prefixes, Covers;
    forall prefix | prefix in Tier1Prefixes() ensures !Covers(prefix, mark) {
      PrefixesMeanThis(prefix);
      DiffersAt(mark, prefix, 0);
    }
  }

  function OneFile(p: Path, blob: Blob): Repo {
    Repo(map["c1" := map[p := blob]], "c1", map[p := blob], map[p := blob], {}, map[])
  }

  /** The repository after the tool has committed these files in place of the others. */
  function Recommitted(before: Repo, files: Tree): Repo {
    Repo(before.commits["c2" := files], "c2", files, files, before.hidden, before.odd)
  }

  lemma RecommittedTrees(p: Path, blob: Blob, files: Tree)
    ensures var before := OneFile(p, blob); var tool := Recommitted(before, files);
      && Head(before) == map[p := blob] && Head(tool) == files
      && StoreGrows(before, tool) && tool.head != before.head
    ensures forall q :: !Dirty(OneFile(p, blob), q)
  {
  }

  lemma MoveNamesNewPath(p: Path, q: Path, blob: Blob)
    requires p != q
    ensures NamesDiff([q], map[p := blob], map[q := blob])
  {
    var a, b := map[p := blob], map[q := blob];
    forall x | Changed(a, b, x) ensures x == q || (x == p && RenameOf(a, b, p, q)) {}
    assert q in [q];
  }

  lemma EditNamesPath(p: Path, blob: Blob, edited: Blob)
    requires blob != edited
    ensures NamesDiff([p], map[p := blob], map[p := edited]) && Changed(map[p := blob], map[p := edited], p)
  {
    assert p in [p];
  }

  /** Reading a diff that names one file. */
  lemma OneNameRead(q: Path, read: string)
    requires IsOrdinary(q) && Strings.Lines(Strings.Strip(q + "\n")) == [read]
    ensures DiffRead(Quoted, [q]) == [read]
  {
    assert [q][1..] == [] && DiffLines(Quoted, [q]) == [q];
    assert Strings.Printed([q]) == q + "\n" + "" == q + "\n";
  }

  /** The lines of a diff that names this file only, with spaces before it. */
  lemma OneLineRead(spaces: string, line: string)
    requires Strings.IsInner(line) && Strings.NoBreaks(line) && Strings.IsBlank(spaces)
    ensures Strings.Lines(Strings.Strip(spaces + line + "\n")) == [line]
  {
    Strings.StripSkips(spaces, line, "\n");
    assert Strings.FirstBreak(line) == |line|;
  }

  /** A commit whose diff is read as one allowlisted name stands, with all that it changed. */
  lemma CommitStands(before: Repo, tool: Repo, q: Path, read: string, p: Path)
    requires StoreGrows(before, tool) && !Dirty(before, p) && tool.head != before.head
    requires NamesDiff([q], Head(before), Head(tool)) && DiffRead(Quoted, [q]) == [read] && InTier1(read)
    requires Changed(Head(before), Head(tool), p)
    ensures GetsPast(before, tool, p)
  {
    hide Found, Faithful, Dictionary, Listing, EndsClean, DiffRead, InTier1, Quoted;
    var a, b := Head(before), Head(tool);
    ListingLists(tool);
    var git := Answering(tool, Some(Listing(tool)), a, b, [q], {});
    AnsweringIsFaithful(tool, Some(Listing(tool)), a, b, [q], {});
    SameReading(git.quote, [q]);
    assert !ShowsTier0(git, a, b);
    KeptExactly(git, before, tool, p);
    assert GetsPastWith(git, before, tool, p);
  }

  lemma {:induction false} SameReading(quote: Path -> string, names: seq<Path>)
    requires forall p :: quote(p) == Quoted(p)
    ensures DiffRead(quote, names) == DiffRead(Quoted, names)
  {
    assert DiffLines(quote, names) == DiffLines(Quoted, names);
  }

  const MOVED: Path := "tests/x.py"

  /** A tool that commits the move of a file of the kernel into the tests: git's diff
      may name the new path only, and then the move stays. */
  lemma RenameHidesMove(blob: Blob)
    ensures var before := OneFile(KERNEL, blob);
      Guarded(before, KERNEL) && GetsPast(before, Recommitted(before, map[MOVED := blob]), KERNEL)
  {
    KernelIsTier0();
    TestsAreTier1();
    PlainNameRead(MOVED);
    MovedIsNotKernel();
    RecommittedTrees(KERNEL, blob, map[MOVED := blob]);
    hide InTier1, DiffRead, IsPathName, NamesDiff, OneFile, Recommitted, Dirty, StoreGrows, GetsPast, KERNEL, MOVED;
    MoveNamesNewPath(KERNEL, MOVED, blob);
    var before := OneFile(KERNEL, blob);
    CommitStands(before, Recommitted(before, map[MOVED := blob]), MOVED, MOVED, KERNEL);
  }

  lemma MovedIsNotKernel()
    ensures MOVED != KERNEL && IsPathName(MOVED)
  {
    assert MOVED[0] != KERNEL[0] && NoNul(MOVED);
  }

  /** Names in plain text are read as they are. */
  lemma PlainNameRead(name: Path)
    requires name in {MOVED, STUDY}
    ensures DiffRead(Quoted, [name]) == [name]
  {
    PlainText(name);
    hide DiffRead, IsOrdinary, MOVED, STUDY, Strings.IsInner, Strings.NoBreaks;
    InnerNameRead(name);
  }

  lemma InnerNameRead(name: Path)
    requires Strings.IsInner(name) && Strings.NoBreaks(name) && IsOrdinary(name)
    ensures DiffRead(Quoted, [name]) == [name]
  {
    hide DiffRead, IsOrdinary, Quoted, Strings.IsInner, Strings.NoBreaks;
    OneLineRead("", name);
    assert "" + name == name;
    OneNameRead(name, name);
  }

  lemma PlainText(line: string)
    requires line in {MOVED, STUDY}
    ensures Strings.IsInner(line) && Strings.NoBreaks(line) && IsOrdinary(line)
  {
    assert forall i | 0 <= i < |MOVED| :: '.' <= MOVED[i] <= 'z' && MOVED[i] != '\\';
    assert forall i | 0 <= i < |STUDY| :: '.' <= STUDY[i] <= 'z' && STUDY[i] != '\\';
  }

  lemma TestsAreTier1()
    ensures InTier1(MOVED)
  {
    assert "tests/" in Tier1Prefixes() && Covers("tests/", MOVED);
  }

  const SPACED: Path := " tests/x.py"

  lemma SpacedIsTier0()
    ensures IsPathName(SPACED) && !InTier1(SPACED) && IsOrdinary(SPACED) && SPACED != KERNEL
    ensures SPACED + "\n" == " " + MOVED + "\n" && Strings.IsBlank(" ")
  {
    assert NoNul(SPACED);
    assert SPACED[0] == ' ' != KERNEL[0];
    assert forall i | 1 <= i < |SPACED| :: '.' <= SPACED[i] <= 'z' && SPACED[i] != '\\';
    hide Tier1Prefixes, Covers;
    forall prefix | prefix in Tier1Prefixes() ensures !Covers(prefix, SPACED) {
      PrefixesMeanThis(prefix);
      DiffersAt(SPACED, prefix, 0);
    }
  }

  /** A name that begins with a space is read without it. */
  lemma SpacedRead()
    ensures DiffRead(Quoted, [SPACED]) == [MOVED]
  {
    SpacedIsTier0();
    PlainText(MOVED);
    hide DiffRead, IsOrdinary, Quoted, MOVED, SPACED, Strings.IsInner, Strings.NoBreaks, InTier1;
    OneLineRead(" ", MOVED);
    OneNameRead(SPACED, MOVED);
  }

  /** A tool that commits a new file in a directory whose name is that of the tests after a
      space: the diff's text is stripped before it is read, and the file stays. */
  lemma SpaceHidesCommit(blob: Blob, added: Blob)
    ensures var before := OneFile(KERNEL, blob);
      Guarded(before, SPACED) && GetsPast(before, Recommitted(before, map[KERNEL := blob, SPACED := added]), SPACED)
  {
    SpacedIsTier0();
    SpacedRead();
    TestsAreTier1();
    RecommittedTrees(KERNEL, blob, map[KERNEL := blob, SPACED := added]);
    hide InTier1, DiffRead, IsPathName, OneFile, Recommitted, Dirty, StoreGrows, GetsPast, KERNEL, SPACED;
    var before := OneFile(KERNEL, blob);
    var tool := Recommitted(before, map[KERNEL := blob, SPACED := added]);
    assert SPACED in [SPACED];
    assert NamesDiff([SPACED], Head(before), Head(tool));
    CommitStands(before, tool, SPACED, MOVED, SPACED);
  }

  const STUDY: Path := "anima/study/x.py"

  /** A tool that commits an edit to a module without tests: the commit touches
      allowlisted paths only, so the edit stays. */
  lemma CommitEscapesBootstrap(blob: Blob, edited: Blob)
    requires blob != edited
    ensures var before := OneFile(STUDY, blob); var tool := Recommitted(before, map[STUDY := edited]);
      Bootstrapped(before, tool, STUDY) && GetsPast(before, tool, STUDY)
  {
    StudyIsBootstrapped(edited);
    PlainNameRead(STUDY);
    RecommittedTrees(STUDY, blob, map[STUDY := edited]);
    EditNamesPath(STUDY, blob, edited);
    assert Recommitted(OneFile(STUDY, blob), map[STUDY := edited]).work == map[STUDY := edited];
    hide InTier1, DiffRead, BootstrapBlocked, OneFile, Recommitted, Dirty, StoreGrows, GetsPast, NamesDiff, STUDY;
    var before := OneFile(STUDY, blob);
    var tool := Recommitted(before, map[STUDY := edited]);
    CommitStands(before, tool, STUDY, STUDY, STUDY);
  }

  lemma StudyIsBootstrapped(edited: Blob)
    ensures InTier1(STUDY) && BootstrapBlocked(map[STUDY := edited], STUDY)
  {
    var p, work := STUDY, map[STUDY := edited];
    assert "study" in TIER1_MODULES && "anima/" + "study" + "/" == "anima/study/";
    assert "anima/study/" in Tier1Prefixes() && Covers("anima/study/", p);
    assert p[|p| - 3..] == ".py";
    forall q | q in work ensures !IsTestOf(q, "study") {
      assert q[0] != 't';
    }
  }

  // ---------------------------------------------------------------------------
  // A change that git does not show
  // ---------------------------------------------------------------------------

  /** A file whose working content is edited, and which git is told not to look at. */
  function FlaggedEdit(p: Path, blob: Blob, edited: Blob): Repo {
    OneFile(p, blob).(work := map[p := edited], hidden := {p})
  }

  /** A dirty file, the only one that HEAD has, stays as it is when it is not found, or when
      the command that should restore it fails. */
  lemma NotRestoredStays(git: Git, p: Path, blob: Blob, tool: Repo)
    requires StoreGrows(OneFile(p, blob), tool) && tool.head == "c1" && Dirty(tool, p)
    requires p !in Violating(git, OneFile(p, blob), tool) || !git.restorer.works(p)
    ensures !Kept(OneFile(p, blob), Enforced(git, OneFile(p, blob), tool), p)
  {
    hide Found, Kept, Less;
    var before := OneFile(p, blob);
    assert Rewound(git, before.head, tool) == tool;
    assert Head(tool) == map[p := blob];
    KeptExactly(git, before, tool, p);
  }

  lemma StaysDirty(git: Git, blob: Blob, tool: Repo)
    requires StoreGrows(OneFile(KERNEL, blob), tool) && tool.head == "c1" && Dirty(tool, KERNEL)
    requires !Shown(git, OneFile(KERNEL, blob), tool, KERNEL) || !git.restorer.works(KERNEL)
    ensures !Kept(OneFile(KERNEL, blob), Enforced(git, OneFile(KERNEL, blob), tool), KERNEL)
  {
    KernelIsTier0();
    hide InTier1, Shown, Found, Kept, KERNEL;
    Tier0IsFoundIfShown(git, OneFile(KERNEL, blob), tool, KERNEL);
    NotRestoredStays(git, KERNEL, blob, tool);
  }

  lemma CleanIsNotRead(git: Git, blob: Blob)
    requires Faithful(git)
    ensures KERNEL !in Read(git, OneFile(KERNEL, blob))
  {
    KernelIsTier0();
    assert !EndsLikeMark(KERNEL);
    hide Dictionary, EndsLikeMark, IsPathName, InTier1, Faithful;
    NoIntentIsStraight(git, OneFile(KERNEL, blob));
    ReadIsSeen(git, OneFile(KERNEL, blob), KERNEL);
  }

  /** A dirty file of the kernel stays as it is when a listing that git may give does not have
      the parser read it. */
  lemma NotReadGetsPast(blob: Blob, tool: Repo, entries: seq<Entry>)
    requires Lists(entries, tool) && KERNEL !in Dictionary(entries)
    requires StoreGrows(OneFile(KERNEL, blob), tool) && tool.head == "c1" && Dirty(tool, KERNEL)
    ensures GetsPast(OneFile(KERNEL, blob), tool, KERNEL)
  {
    hide InTier1, IsPathName, Faithful, Dictionary, Found, Listing, Kept, Enforced, Lists, KERNEL;
    var before := OneFile(KERNEL, blob);
    var git := Answering(tool, Some(entries), map[], map[], [], {});
    AnsweringIsFaithful(tool, Some(entries), map[], map[], [], {});
    CleanIsNotRead(git, blob);
    StaysDirty(git, blob, tool);
    assert GetsPastWith(git, before, tool, KERNEL);
  }

  lemma FlaggedStays(git: Git, blob: Blob, edited: Blob)
    requires Faithful(git) && blob != edited
    ensures var before, tool := OneFile(KERNEL, blob), FlaggedEdit(KERNEL, blob, edited);
      !Kept(before, Enforced(git, before, tool), KERNEL)
  {
    KernelIsTier0();
    assert !EndsLikeMark(KERNEL);
    hide InTier1, IsPathName, Faithful, Dictionary, EndsLikeMark, Shown, KERNEL;
    var before, tool := OneFile(KERNEL, blob), FlaggedEdit(KERNEL, blob, edited);
    NoIntentIsStraight(git, before);
    NoIntentIsStraight(git, tool);
    ShownIsRead(git, before, tool, KERNEL);
    StaysDirty(git, blob, tool);
  }

  /** A tool that marks a file of the kernel as assume-unchanged and edits it: the edit
      stays, with any answers of git. */
  lemma FlagHidesEdit(blob: Blob, edited: Blob)
    requires blob != edited
    ensures var before := OneFile(KERNEL, blob); var tool := FlaggedEdit(KERNEL, blob, edited);
      && Guarded(before, KERNEL) && GetsPast(before, tool, KERNEL)
      && forall git | Faithful(git) :: !Kept(before, Enforced(git, before, tool), KERNEL)
  {
    hide InTier1, IsPathName, Faithful, Kept, Listing, Enforced;
    KernelIsTier0();
    var before, tool := OneFile(KERNEL, blob), FlaggedEdit(KERNEL, blob, edited);
    forall git | Faithful(git) ensures !Kept(before, Enforced(git, before, tool), KERNEL) {
      FlaggedStays(git, blob, edited);
    }
    ListingLists(tool);
    var git := Answering(tool, Some(Listing(tool)), map[], map[], [], {});
    AnsweringIsFaithful(tool, Some(Listing(tool)), map[], map[], [], {});
    assert GetsPastWith(git, before, tool, KERNEL);
  }

  lemma NoIntentIsStraight(git: Git, r: Repo)
    requires Faithful(git) && forall p :: !IsIntended(r, p)
    ensures IsStraight(git, r)
  {
    if git.status(r).Some? {
      NoIntentNoWorkRenames(git.status(r).value, r);
    }
  }

  /** A file of the kernel whose working content is edited. */
  function PlainEdit(blob: Blob, edited: Blob): Repo {
    OneFile(KERNEL, blob).(work := map[KERNEL := edited])
  }

  /** A tool that edits a file of the kernel and leaves a repository in which the listing
      fails: the wrapper reads that as a clean one, and the edit stays. */
  lemma FailedListingHidesEdit(blob: Blob, edited: Blob)
    requires blob != edited
    ensures Guarded(OneFile(KERNEL, blob), KERNEL)
    ensures GetsPast(OneFile(KERNEL, blob), PlainEdit(blob, edited), KERNEL)
  {
    KernelIsTier0();
    assert !EndsLikeMark(KERNEL);
    hide InTier1, IsPathName, Faithful, Dictionary, Found, EndsLikeMark, Listing, Kept, Enforced, Shown;
    var before, tool := OneFile(KERNEL, blob), PlainEdit(blob, edited);
    var git := Answering(tool, None, map[], map[], [], {});
    AnsweringIsFaithful(tool, None, map[], map[], [], {});
    NoIntentIsStraight(git, before);
    ShownIsRead(git, before, tool, KERNEL);
    StaysDirty(git, blob, tool);
    assert GetsPastWith(git, before, tool, KERNEL);
  }

  /** A tool that edits a file of the kernel and leaves a lock in the repository: the command
      that should restore the file fails, which the wrapper does not notice. */
  lemma LockKeepsEdit(blob: Blob, edited: Blob)
    requires blob != edited
    ensures Guarded(OneFile(KERNEL, blob), KERNEL)
    ensures GetsPast(OneFile(KERNEL, blob), PlainEdit(blob, edited), KERNEL)
    ensures forall git: Git | !git.restorer.works(KERNEL) ::
      !Kept(OneFile(KERNEL, blob), Enforced(git, OneFile(KERNEL, blob), PlainEdit(blob, edited)), KERNEL)
  {
    KernelIsTier0();
    hide InTier1, IsPathName, Faithful, Dictionary, Found, Listing, Kept, Enforced, Shown;
    var before, tool := OneFile(KERNEL, blob), PlainEdit(blob, edited);
    ListingLists(tool);
    forall git: Git | !git.restorer.works(KERNEL) ensures !Kept(before, Enforced(git, before, tool), KERNEL) {
      StaysDirty(git, blob, tool);
    }
    var git := Answering(tool, Some(Listing(tool)), map[], map[], [], {KERNEL});
    AnsweringIsFaithful(tool, Some(Listing(tool)), map[], map[], [], {KERNEL});
    assert GetsPastWith(git, before, tool, KERNEL);
  }

  // ---------------------------------------------------------------------------
  // A move in the working tree
  // ---------------------------------------------------------------------------

  /** A file of the kernel moved to the tests, where it is intended to be added. */
  function MovedByIntent(blob: Blob): Repo {
    OneFile(KERNEL, blob).(work := map[MOVED := blob], odd := map[MOVED := Intended])
  }

  function MoveListing(): seq<Entry> {
    [Entry(" R", MOVED, KERNEL)]
  }

  lemma MoveListingLists(blob: Blob)
    ensures Lists(MoveListing(), MovedByIntent(blob))
  {
    var r, e := MovedByIntent(blob), Entry(" R", MOVED, KERNEL);
    KernelIsTier0();
    MovedIsNotKernel();
    hide InTier1, KERNEL, MOVED;
    assert ListedRight(r, e);
    assert e in MoveListing() && Mentions(e, KERNEL) && Mentions(e, MOVED);
  }

  const MOVE_TOKEN := " R " + MOVED

  lemma TokensOfMove(first: string, second: string)
    requires NoNul(first) && NoNul(second)
    ensures SplitNul(first + "\0" + (second + "\0")) == [first, second, ""]
  {
    SplitLastToken("");
    hide SplitNul, NoNul;
    assert second + "\0" == second + "\0" + "";
    SplitToken(first, second + "\0" + "");
    SplitToken(second, "");
  }

  lemma MoveText()
    ensures NoNul(MOVE_TOKEN) && NoNul(KERNEL)
    ensures Text(MoveListing()) == MOVE_TOKEN + "\0" + (KERNEL + "\0") && Fits(MoveListing())
  {
    var e := Entry(" R", MOVED, KERNEL);
    assert HeadToken(e) == MOVE_TOKEN;
    assert MoveListing()[1..] == [];
    assert Text(MoveListing()) == EntryText(e) + "" == EntryText(e);
  }

  /** The parser takes the old path for an entry of its own. */
  lemma MoveIsMisread()
    ensures KERNEL !in Dictionary(MoveListing())
  {
    MoveText();
    MoveTokens();
    hide NoNul, SplitNul, Text, MoveListing, Parsed, KERNEL, MOVE_TOKEN, MOVED, Prefix, Suffix;
    TokensOfMove(MOVE_TOKEN, KERNEL);
    TokensRead(MOVE_TOKEN, KERNEL);
  }

  lemma MoveTokens()
    ensures MOVE_TOKEN != "" && KERNEL != ""
    ensures !TwoPaths(Prefix(MOVE_TOKEN, 2)) && !TwoPaths(Prefix(KERNEL, 2))
    ensures Suffix(MOVE_TOKEN, 3) != KERNEL && Suffix(KERNEL, 3) != KERNEL
  {
    assert Suffix(MOVE_TOKEN, 3)[0] == MOVED[0] == 't' != KERNEL[0];
    assert |Suffix(KERNEL, 3)| < |KERNEL|;
  }

  lemma TokensRead(first: string, second: string)
    requires first != "" && second != "" && !TwoPaths(Prefix(first, 2)) && !TwoPaths(Prefix(second, 2))
    ensures Parsed(map[], [first, second, ""]) ==
      map[Suffix(first, 3) := Prefix(first, 2)][Suffix(second, 3) := Prefix(second, 2)]
  {
    assert [first, second, ""][1..] == [second, ""] && [second, ""][1..] == [""] && [""][1..] == [];
    var d := map[Suffix(first, 3) := Prefix(first, 2)];
    var d' := d[Suffix(second, 3) := Prefix(second, 2)];
    assert Parsed(d', [""]) == Parsed(d', []) == d';
    assert Parsed(d, [second, ""]) == Parsed(d', [""]);
  }

  /** A tool that moves a file of the kernel into the tests and only intends to add it there:
      git lists a rename in the working tree, whose old path is misread, and the move stays. */
  lemma IntentHidesMove(blob: Blob)
    ensures Guarded(OneFile(KERNEL, blob), KERNEL)
    ensures GetsPast(OneFile(KERNEL, blob), MovedByIntent(blob), KERNEL)
  {
    KernelIsTier0();
    MoveIsMisread();
    MoveListingLists(blob);
    MovedIsNotKernel();
    hide InTier1, IsPathName, Dictionary, Lists, MoveListing, GetsPast, KERNEL, MOVED;
    NotReadGetsPast(blob, MovedByIntent(blob), MoveListing());
  }

  // ---------------------------------------------------------------------------
  // A name that is a pattern
  // ---------------------------------------------------------------------------

  const STAR: Path := "*"

  /** A file that is named by a star, beside a file of the kernel. */
  function StarAdded(blob: Blob): Repo {
    OneFile(KERNEL, blob).(work := map[KERNEL := blob, STAR := ""])
  }

  lemma StarIsTier0()
    ensures IsPathName(STAR) && !InTier1(STAR) && STAR != KERNEL && OnlyStars(STAR) && !EndsLikeMark(STAR)
  {
    assert |STAR| == 1 && STAR[0] == '*' != KERNEL[0];
    hide Tier1Prefixes, Covers;
    forall prefix | prefix in Tier1Prefixes() ensures !Covers(prefix, STAR) {
      PrefixesMeanThis(prefix);
      DiffersAt(STAR, prefix, 0);
    }
  }

  lemma StarUnstages(git: Git, blob: Blob)
    requires Faithful(git) && git.restorer.works(STAR)
    requires IsWhole(git, OneFile(KERNEL, blob)) && IsWhole(git, StarAdded(blob))
    ensures !Kept(OneFile(KERNEL, blob), Enforced(git, OneFile(KERNEL, blob), StarAdded(blob)), KERNEL)
  {
    KernelIsTier0();
    StarIsTier0();
    StarMatchesAll(KERNEL);
    assert Glob(STAR, KERNEL);
    var before, tool := OneFile(KERNEL, blob), StarAdded(blob);
    hide InTier1, IsPathName, Shown, Found, Kept, Less, KERNEL, STAR, Glob, IsWhole, OnlyStars;
    ShownExactly(git, before, tool, STAR);
    ShownExactly(git, before, tool, KERNEL);
    Tier0IsFoundIfShown(git, before, tool, STAR);
    Tier0IsFoundIfShown(git, before, tool, KERNEL);
    assert Rewound(git, before.head, tool) == tool;
    KeptExactly(git, before, tool, KERNEL);
    assert Head(tool) == map[KERNEL := blob];
    assert Unstages(git.restorer, Head(tool), STAR, KERNEL);
  }

  lemma SmallListingIsWhole(git: Git, r: Repo, entries: seq<Entry>)
    requires git.status(r) == Some(entries) && AllReadable(entries)
    requires entries == [] || (|entries| == 1 && |EntryText(entries[0])| < 100)
    ensures IsWhole(git, r)
  {
    if entries != [] {
      assert entries[1..] == [];
      assert Text(entries) == EntryText(entries[0]) + "";
    }
  }

  /** A tool that creates a file named by a star: restoring that name unstages every file,
      those of the kernel included, whatever git answers in whole listings. */
  lemma StarUnstagesAll(blob: Blob)
    ensures var before, tool := OneFile(KERNEL, blob), StarAdded(blob);
      && Guarded(before, KERNEL) && GetsPast(before, tool, KERNEL)
      && forall git | Faithful(git) && git.restorer.works(STAR) && IsWhole(git, before) && IsWhole(git, tool) ::
           !Kept(before, Enforced(git, before, tool), KERNEL)
  {
    KernelIsTier0();
    StarIsTier0();
    hide InTier1, IsPathName, Faithful, Kept, Enforced, IsWhole, KERNEL, STAR;
    var before, tool := OneFile(KERNEL, blob), StarAdded(blob);
    forall git | Faithful(git) && git.restorer.works(STAR) && IsWhole(git, before) && IsWhole(git, tool)
      ensures !Kept(before, Enforced(git, before, tool), KERNEL)
    {
      StarUnstages(git, blob);
    }
    var git := StarGit(blob);
    assert GetsPastWith(git, before, tool, KERNEL);
  }

  ghost predicate StarAnswers(git: Git, blob: Blob) {
    && Faithful(git) && git.restorer.works(STAR)
    && IsWhole(git, OneFile(KERNEL, blob)) && IsWhole(git, StarAdded(blob))
  }

  lemma StarGit(blob: Blob) returns (git: Git)
    ensures StarAnswers(git, blob)
  {
    KernelIsTier0();
    StarIsTier0();
    var before, tool := OneFile(KERNEL, blob), StarAdded(blob);
    var e := Entry("??", STAR, "");
    assert |EntryText(e)| < 100 && Readable(e);
    hide InTier1, IsPathName, EntryText, Text, KERNEL, STAR;
    assert e in [e] && Mentions(e, STAR);
    assert Lists([e], tool);
    git := Answering(tool, Some([e]), map[], map[], [], {});
    AnsweringIsFaithful(tool, Some([e]), map[], map[], [], {});
    SmallListingIsWhole(git, tool, [e]);
    CleanListing(blob);
    SmallListingIsWhole(git, before, []);
  }

  lemma CleanListing(blob: Blob)
    ensures Listing(OneFile(KERNEL, blob)) == []
  {
    var r := OneFile(KERNEL, blob);
    assert TrackedPaths(r) == {} && UntrackedPaths(r) == {};
  }

  // ---------------------------------------------------------------------------
  // A listing that is cut
  // ---------------------------------------------------------------------------

  const FILLERS: nat := 200

  /** File names of 250 characters, in order. */
  function FillerName(i: nat): (s: string)
    ensures |s| == 250 && forall k | 0 <= k < 250 :: s[k] == if k < 250 - i then 'a' else 'b'
  {
    seq(250, k => if k < 250 - i then 'a' else 'b')
  }

  const DATASET: Path := "anima/dataset/"

  /** Paths in an allowlisted directory. */
  function Filler(i: nat): (p: Path)
    ensures |p| == 264
    ensures IsPathName(p)
    ensures DATASET <= p
  {
    assert NoNul(DATASET) && |DATASET| == 14;
    var p := DATASET + FillerName(i);
    assert forall k | 0 <= k < |p| :: p[k] == if k < |DATASET| then DATASET[k] else FillerName(i)[k - |DATASET|];
    p
  }

  function Fillers(): (t: Tree)
    ensures forall p :: p in t <==> exists i: nat :: i < FILLERS && Filler(i) == p
  {
    var paths := set i: nat | i < FILLERS :: Filler(i);
    map p | p in paths :: ""
  }

  /** Many new files are staged, and a file of the kernel is edited. */
  function StagedAndEdited(blob: Blob, edited: Blob): Repo {
    OneFile(KERNEL, blob).(index := map[KERNEL := blob] + Fillers(), work := map[KERNEL := edited] + Fillers())
  }

  function StagedEntries(n: nat): (entries: seq<Entry>)
    requires n <= FILLERS
    ensures |entries| == n && forall i | 0 <= i < n :: entries[i] == Entry("A ", Filler(i), "")
  {
    if n == 0 then [] else StagedEntries(n - 1) + [Entry("A ", Filler(n - 1), "")]
  }

  lemma {:induction false} StagedText(n: nat)
    requires n <= FILLERS
    ensures |Text(StagedEntries(n))| == 268 * n
  {
    if n > 0 {
      hide Filler;
      var e := Entry("A ", Filler(n - 1), "");
      StagedText(n - 1);
      TextConcat(StagedEntries(n - 1), [e]);
      assert [e][1..] == [];
      assert Text([e]) == EntryText(e) + "";
      assert |EntryText(e)| == 268;
    }
  }

  function CutListing(): seq<Entry> {
    StagedEntries(FILLERS) + [Entry(" M", KERNEL, "")]
  }

  lemma FillersAreNotKernel()
    ensures KERNEL !in Fillers()
  {
    forall i: nat | i < FILLERS ensures Filler(i) != KERNEL {
      assert |KERNEL| == 17;
    }
  }

  lemma StagedIsRight(blob: Blob, edited: Blob, i: nat)
    requires i < FILLERS
    ensures ListedRight(StagedAndEdited(blob, edited), Entry("A ", Filler(i), ""))
  {
    hide Filler;
    FillersAreNotKernel();
    assert Filler(i) in Fillers();
  }

  lemma EditedIsRight(blob: Blob, edited: Blob)
    requires blob != edited
    ensures ListedRight(StagedAndEdited(blob, edited), Entry(" M", KERNEL, ""))
  {
    FillersAreNotKernel();
    KernelIsTier0();
    hide Filler, Fillers, InTier1;
  }

  lemma OnlyTheseAreDirty(blob: Blob, edited: Blob, p: Path)
    requires p != KERNEL && p !in Fillers()
    ensures !SeenDirty(StagedAndEdited(blob, edited), p) && !Untracked(StagedAndEdited(blob, edited), p)
  {
    hide Fillers;
  }

  lemma FillersAreTracked(blob: Blob, edited: Blob, p: Path)
    requires p == KERNEL || p in Fillers()
    ensures !Untracked(StagedAndEdited(blob, edited), p)
  {
    hide Fillers;
  }

  lemma CutListingMentions(p: Path)
    requires p == KERNEL || p in Fillers()
    ensures MentionedIn(CutListing(), p)
  {
    hide Filler, StagedEntries;
    var l := CutListing();
    if p == KERNEL {
      assert l[FILLERS] in l && Mentions(l[FILLERS], p);
    } else {
      var i: nat :| i < FILLERS && Filler(i) == p;
      assert l[i] == StagedEntries(FILLERS)[i];
      assert l[i] in l && Mentions(l[i], p);
    }
  }

  lemma CutListingLists(blob: Blob, edited: Blob)
    requires blob != edited
    ensures Lists(CutListing(), StagedAndEdited(blob, edited))
  {
    hide StagedAndEdited, Filler, Fillers, StagedEntries, ListedRight, SeenDirty, Untracked, MentionedIn, IsPathName;
    var r, l, staged := StagedAndEdited(blob, edited), CutListing(), StagedEntries(FILLERS);
    forall i | 0 <= i < |l| ensures ListedRight(r, l[i]) && l[i].code != "??" {
      if i < FILLERS {
        assert l[i] == staged[i];
        StagedIsRight(blob, edited, i);
      } else {
        EditedIsRight(blob, edited);
      }
    }
    forall p | SeenDirty(r, p) || Untracked(r, p) ensures MentionedIn(l, p) && !Untracked(r, p) {
      if p == KERNEL || p in Fillers() {
        CutListingMentions(p);
        FillersAreTracked(blob, edited, p);
      } else {
        OnlyTheseAreDirty(blob, edited, p);
      }
    }
  }

  lemma StagedEditIsDirty(blob: Blob, edited: Blob)
    requires blob != edited
    ensures var before, tool := OneFile(KERNEL, blob), StagedAndEdited(blob, edited);
      StoreGrows(before, tool) && tool.head == "c1" && Dirty(tool, KERNEL) && !Dirty(before, KERNEL)
  {
    FillersAreNotKernel();
    hide Fillers, KERNEL;
  }

  /** A tool that stages many new files in an allowlisted directory and edits a file of the
      kernel: the listing is cut before that file, and the edit stays. */
  lemma CutHidesEdit(blob: Blob, edited: Blob)
    requires blob != edited
    ensures Guarded(OneFile(KERNEL, blob), KERNEL)
    ensures GetsPast(OneFile(KERNEL, blob), StagedAndEdited(blob, edited), KERNEL)
  {
    KernelIsTier0();
    FillersAreNotKernel();
    CutListingLists(blob, edited);
    KernelIsPastTheCut();
    StagedEditIsDirty(blob, edited);
    hide InTier1, IsPathName, Dictionary, Lists, CutListing, OneFile, StagedAndEdited, Dirty, StoreGrows, GetsPast;
    NotReadGetsPast(blob, StagedAndEdited(blob, edited), CutListing());
  }

  lemma KernelIsPastTheCut()
    ensures !EndsLikeMark(KERNEL) && KERNEL !in Dictionary(CutListing())
  {
    var front, back := StagedEntries(FILLERS), [Entry(" M", KERNEL, "")];
    StagedText(FILLERS);
    hide StagedEntries, Filler, Dictionary, Text;
    forall i | 0 <= i < FILLERS ensures Readable(front[i]) && !Mentions(front[i], KERNEL) {
      assert front[i] == Entry("A ", Filler(i), "") && |KERNEL| == 17;
    }
    PastTheCutIsNotRead(front, back, KERNEL);
  }

  // ---------------------------------------------------------------------------
  // A conflict
  // ---------------------------------------------------------------------------

  /** A source file of a module without tests, edited and left as added by both sides of a
      conflict. */
  function Conflicted(blob: Blob, edited: Blob): Repo {
    OneFile(STUDY, blob).(work := map[STUDY := edited], odd := map[STUDY := Unmerged("AA")])
  }

  lemma StudyIsName()
    ensures IsPathName(STUDY)
  {
    assert NoNul(STUDY);
  }

  lemma ConflictStays(git: Git, blob: Blob, edited: Blob)
    requires Faithful(git) && IsWhole(git, Conflicted(blob, edited))
    ensures var before, tool := OneFile(STUDY, blob), Conflicted(blob, edited);
      !Kept(before, Enforced(git, before, tool), STUDY)
  {
    StudyIsBootstrapped(edited);
    StudyIsName();
    hide InTier1, BootstrapBlocked, IsPathName, Less, STUDY, IsWhole, Found, Shown, Faithful, Kept, IsNew, Read;
    var before, tool := OneFile(STUDY, blob), Conflicted(blob, edited);
    assert Rewound(git, before.head, tool) == tool;
    StatusIsRight(git, tool, STUDY);
    assert LastCode(Read(git, before), Read(git, tool), STUDY) == Read(git, tool)[STUDY];
    BootstrappedIsFound(git, before, tool, STUDY);
    hide LastCode, Violating, Enforced;
    NotRestoredStays(git, STUDY, blob, tool);
  }

  lemma StatusIsRight(git: Git, r: Repo, p: Path)
    requires Faithful(git) && IsWhole(git, r) && IsPathName(p) && p in Head(r) && AddedInConflict(r, p)
    ensures p in Read(git, r) && Read(git, r)[p] != "" && IsNew(Read(git, r)[p])
  {
    hide Dictionary, Fits, NoWorkRenames, IsPathName, Lists;
    StatusKeysAreDirty(git.status(r).value, r, p);
    LooksNew(git.status(r).value, r, p);
  }

  /** A tool that edits such a file and leaves it as added in a conflict: its code looks like
      that of a new file, and the edit stays, whatever git answers in a whole listing. */
  lemma ConflictEscapesBootstrap(blob: Blob, edited: Blob)
    ensures var before, tool := OneFile(STUDY, blob), Conflicted(blob, edited);
      && Bootstrapped(before, tool, STUDY) && GetsPast(before, tool, STUDY)
      && forall git | Faithful(git) && IsWhole(git, tool) :: !Kept(before, Enforced(git, before, tool), STUDY)
  {
    StudyIsBootstrapped(edited);
    var git := ConflictGit(blob, edited);
    hide InTier1, BootstrapBlocked, Faithful, Kept, Enforced, IsWhole, STUDY;
    var before, tool := OneFile(STUDY, blob), Conflicted(blob, edited);
    forall other | Faithful(other) && IsWhole(other, tool)
      ensures !Kept(before, Enforced(other, before, tool), STUDY)
    {
      ConflictStays(other, blob, edited);
    }
    assert GetsPastWith(git, before, tool, STUDY);
  }

  lemma ConflictGit(blob: Blob, edited: Blob) returns (git: Git)
    ensures Faithful(git) && IsWhole(git, Conflicted(blob, edited))
  {
    var tool, e := Conflicted(blob, edited), Entry("AA", STUDY, "");
    StudyIsName();
    assert |EntryText(e)| < 100 && Readable(e);
    hide EntryText, Text, STUDY;
    assert e in [e] && Mentions(e, STUDY);
    assert Lists([e], tool);
    git := Answering(tool, Some([e]), map[], map[], [], {});
    AnsweringIsFaithful(tool, Some([e]), map[], map[], [], {});
    SmallListingIsWhole(git, tool, [e]);
  }
}

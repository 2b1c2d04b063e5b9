/** The detect-and-revert wrapper around mutating tools in a worktree of anima's own
    source: compare status before and after, undo commits that leave the allowlist,
    restore every violating path. */
module TierEnforcement {
  import opened GitModel
  import opened Options
  import opened Restoring
  import opened Splitting
  import Strings = Text

  const TIER1_MODULES: set<string> := {"evaluation", "dataset", "study", "timing", "manifester"}

  function Tier1Prefixes(): set<Path> {
    {"tests/", "docs/"} + set m | m in TIER1_MODULES :: "anima/" + m + "/"
  }

  /** The directory named by this prefix, or a path in it. */
  predicate Covers(prefix: Path, p: Path) {
    prefix != "" && (p == prefix[..|prefix| - 1] || prefix <= p)
  }

  predicate InTier1(p: Path) {
    exists prefix :: prefix in Tier1Prefixes() && Covers(prefix, p)
  }

  predicate EndsWith(p: string, suffix: string) {
    |suffix| <= |p| && p[|p| - |suffix|..] == suffix
  }

  /** A file matching `tests/test_<module>*.py`. */
  predicate IsTestOf(q: Path, m: string) {
    var stem := "tests/test_" + m;
    && stem <= q
    && EndsWith(q[|stem|..], ".py")
    && '/' !in q[|stem|..]
  }

  predicate HasTests(work: Tree, m: string) {
    exists q :: q in work && IsTestOf(q, m)
  }

  predicate BootstrapBlocked(work: Tree, p: Path) {
    exists m :: m in TIER1_MODULES && "anima/" + m + "/" <= p && EndsWith(p, ".py") && !HasTests(work, m)
  }

  function CodeAt(status: map<Path, string>, p: Path): string {
    if p in status then status[p] else ""
  }

  predicate IsNew(code: string) {
    code != "" && code[0] in {'?', 'A'}
  }

  /** Python's `after.get(path) or before.get(path) or ""`. */
  function LastCode(before: map<Path, string>, after: map<Path, string>, p: Path): string {
    if CodeAt(after, p) != "" then CodeAt(after, p) else CodeAt(before, p)
  }

  predicate IsViolation(work: Tree, before: map<Path, string>, after: map<Path, string>, p: Path) {
    && CodeAt(before, p) != CodeAt(after, p)
    && (!InTier1(p) || (!IsNew(LastCode(before, after, p)) && BootstrapBlocked(work, p)))
  }

  function Violations(work: Tree, before: map<Path, string>, after: map<Path, string>): set<Path> {
    set p | p in before.Keys + after.Keys && IsViolation(work, before, after, p)
  }

  /** The part before the first slash is the whole, or is followed by the slash. */
  lemma FirstPart(p: Path)
    ensures var first := Split(p, '/')[0]; first == p || first + "/" <= p
  {
    var k := IndexOf(p, '/');
    if k < |p| {
      assert p[..k + 1] == p[..k] + "/";
    }
  }

  lemma CoversFirst(a: string, p: Path)
    requires Lacks(a, '/')
    ensures Covers(a + "/", p) <==> Split(p, '/')[0] == a
  {
    hide Split, Lacks;
    var prefix := a + "/";
    assert prefix[..|prefix| - 1] == a;
    FirstPart(p);
    if prefix <= p {
      assert p == a + ['/'] + p[|prefix|..];
      SplitFirst(a, '/', p[|prefix|..]);
    } else if p == a {
      SplitLast(a, '/');
    }
  }

  lemma PrefixBelow(a: string, x: string, y: string)
    ensures a + x <= a + y <==> x <= y
  {
    var ax, ay := a + x, a + y;
    if x <= y {
      assert ay == ax + y[|x|..];
    }
    if ax <= ay {
      assert y == ay[|a|..] == x + ay[|ax|..];
    }
  }

  lemma CoversBelow(a: string, inner: string, rest: string)
    requires inner != ""
    ensures Covers(a + inner, a + rest) <==> Covers(inner, rest)
  {
    PrefixBelow(a, inner, rest);
    var prefix := a + inner;
    assert prefix[..|prefix| - 1] == a + inner[..|inner| - 1];
    assert (a + rest)[|a|..] == rest && (a + inner[..|inner| - 1])[|a|..] == inner[..|inner| - 1];
  }

  lemma CoversOuter(a: string, inner: string, p: Path)
    requires |inner| > 1 && Covers(a + "/" + inner, p)
    ensures (a + "/") <= p
  {
    var prefix := a + "/" + inner;
    assert prefix[..|a| + 1] == a + "/";
    assert prefix[..|prefix| - 1][..|a| + 1] == a + "/";
  }

  lemma CoversSecond(a: string, b: string, p: Path)
    requires Lacks(a, '/') && Lacks(b, '/') && b != ""
    ensures Covers(a + "/" + b + "/", p) <==> |Split(p, '/')| > 1 && Split(p, '/')[0] == a && Split(p, '/')[1] == b
  {
    var inner := b + "/";
    assert a + "/" + b + "/" == a + "/" + inner;
    if (a + "/") <= p {
      var rest := p[|a| + 1..];
      assert p == a + ['/'] + rest == a + "/" + rest;
      SplitFirst(a, '/', rest);
      CoversFirst(b, rest);
      CoversBelow(a + "/", inner, rest);
    } else {
      CoversFirst(a, p);
      if Covers(a + "/" + inner, p) {
        CoversOuter(a, inner, p);
      } else if p == a {
        SplitLast(a, '/');
      }
    }
  }

  /** This path is in the directory of this module. */
  predicate InModule(p: Path, m: string) {
    var parts := Split(p, '/');
    |parts| > 1 && parts[0] == "anima" && parts[1] == m
  }

  lemma ModuleCovers(p: Path, m: string)
    requires m in TIER1_MODULES
    ensures Covers("anima/" + m + "/", p) <==> InModule(p, m)
  {
    hide Covers, Split;
    PlainWords();
    CoversSecond("anima", m, p);
    assert "anima" + "/" + m + "/" == "anima/" + m + "/";
  }

  lemma AllowlistCases(p: Path)
    ensures InTier1(p) <==>
      || Covers("tests/", p) || Covers("docs/", p)
      || exists m :: m in TIER1_MODULES && Covers("anima/" + m + "/", p)
  {
    hide Covers;
    assert "tests/" in Tier1Prefixes() && "docs/" in Tier1Prefixes();
  }

  /** The allowlist said of the components of a path. */
  lemma AllowlistMeans(p: Path)
    ensures InTier1(p) <==>
      || Split(p, '/')[0] in {"tests", "docs"}
      || InModule(p, "evaluation") || InModule(p, "dataset") || InModule(p, "study")
      || InModule(p, "timing") || InModule(p, "manifester")
  {
    hide Covers, Split, InTier1, InModule;
    PlainWords();
    CoversFirst("tests", p);
    CoversFirst("docs", p);
    assert "tests" + "/" == "tests/" && "docs" + "/" == "docs/";
    AllowlistCases(p);
    forall m | m in TIER1_MODULES ensures Covers("anima/" + m + "/", p) <==> InModule(p, m) {
      ModuleCovers(p, m);
    }
  }

  lemma PlainWords()
    ensures Lacks("tests", '/') && Lacks("docs", '/') && Lacks("anima", '/')
    ensures forall m | m in TIER1_MODULES :: Lacks(m, '/') && !EndsWith(m, ".py")
  {
  }

  /** The bootstrap rule: the source files of a module are blocked exactly while the worktree has
      no file `tests/test_<module>...py` directly in `tests`. */
  lemma BootstrapMeans(work: Tree, p: Path, m: string)
    requires m in TIER1_MODULES && ("anima/" + m + "/") <= p
    ensures BootstrapBlocked(work, p) <==>
      EndsWith(p, ".py") && forall middle | Lacks(middle, '/') :: "tests/test_" + m + middle + ".py" !in work
  {
    hide IsTestOf, EndsWith, Split;
    forall n | n in TIER1_MODULES && ("anima/" + n + "/") <= p ensures n == m {
      ModuleCovers(p, n);
      ModuleCovers(p, m);
    }
    forall q | q in work && IsTestOf(q, m)
      ensures exists middle :: Lacks(middle, '/') && "tests/test_" + m + middle + ".py" in work
    {
      var middle := TestMiddle(q, m);
    }
    forall middle | Lacks(middle, '/') && "tests/test_" + m + middle + ".py" in work ensures HasTests(work, m) {
      TestNamed(m, middle);
    }
  }

  lemma TestMiddle(q: Path, m: string) returns (middle: string)
    requires IsTestOf(q, m)
    ensures Lacks(middle, '/') && "tests/test_" + m + middle + ".py" == q
  {
    var stem := "tests/test_" + m;
    var rest := q[|stem|..];
    middle := rest[..|rest| - 3];
    assert q == stem + rest && rest == middle + ".py";
    assert forall i | 0 <= i < |middle| :: middle[i] == rest[i];
  }

  lemma TestNamed(m: string, middle: string)
    requires Lacks(middle, '/')
    ensures IsTestOf("tests/test_" + m + middle + ".py", m)
  {
    var stem := "tests/test_" + m;
    var q := stem + middle + ".py";
    assert q == stem + (middle + ".py") && q[|stem|..] == middle + ".py";
    assert (middle + ".py")[|middle|..] == ".py";
  }

  /** Of an allowlisted path whose code has changed, the later code decides whether it looks
      new, and the earlier one only if it is clean now. */
  lemma LaterCodeDecides(work: Tree, before: map<Path, string>, after: map<Path, string>, p: Path)
    requires InTier1(p) && BootstrapBlocked(work, p) && p in before.Keys + after.Keys
    requires (p in before ==> before[p] != "") && (p in after ==> after[p] != "")
    requires p in before && p in after ==> before[p] != after[p]
    ensures p in Violations(work, before, after) <==>
      var first := if p in after then after[p][0] else before[p][0];
      first != '?' && first != 'A'
  {
    hide InTier1, BootstrapBlocked;
  }

  // ---------------------------------------------------------------------------
  // What git answers
  // ---------------------------------------------------------------------------

  /** What git answers with: the listing of any state, and the paths that differ between any
      two trees; `None` when the command fails. The diff is `None` also when its output is
      cut: the line that marks a cut is itself no allowlisted path. Then how the diff
      prints a name, and how a name is taken by the commands that restore it. */
  datatype Git = Git(
    status: Repo -> Option<seq<Entry>>,
    diff: (Tree, Tree) -> Option<seq<Path>>,
    quote: Path -> string,
    restorer: Restorer)

  /** Names of these characters are printed as they are, others as quoted strings. */
  predicate IsOrdinary(p: Path) {
    forall i | 0 <= i < |p| :: ' ' <= p[i] <= '~' && p[i] != '"' && p[i] != '\\'
  }

  predicate IsQuoted(s: string) {
    |s| >= 2 && s[0] == '"' && s[|s| - 1] == '"' && Strings.NoBreaks(s)
  }

  ghost predicate Quotes(quote: Path -> string) {
    forall p :: if IsOrdinary(p) then quote(p) == p else IsQuoted(quote(p))
  }

  ghost predicate Faithful(git: Git) {
    && (forall r :: git.status(r).Some? ==> Lists(git.status(r).value, r))
    && (forall a, b :: git.diff(a, b).Some? ==> NamesDiff(git.diff(a, b).value, a, b))
    && Quotes(git.quote)
    && TakesStars(git.restorer)
  }

  /** The lines that the diff prints. */
  function DiffLines(quote: Path -> string, names: seq<Path>): (lines: seq<string>)
    ensures |lines| == |names| && forall i | 0 <= i < |names| :: lines[i] == quote(names[i])
  {
    if names == [] then [] else [quote(names[0])] + DiffLines(quote, names[1..])
  }

  /** The lines that are read of the diff: its whole text is stripped first. */
  function DiffRead(quote: Path -> string, names: seq<Path>): seq<string> {
    Strings.Lines(Strings.Strip(Strings.Printed(DiffLines(quote, names))))
  }

  datatype Outcome = Passed | Reverted(paths: set<Path>) | LiveReverted(paths: set<Path>) | ResetFailed

  /** The new commit touches a path outside the allowlist, as far as its diff shows. */
  predicate ShowsTier0(git: Git, before: Tree, after: Tree) {
    var d := git.diff(before, after);
    d.None? || exists line :: line in DiffRead(git.quote, d.value) && line != "" && !InTier1(line)
  }

  /** The worktree after the tool, with its commits undone if their diff shows a violation. */
  function Rewound(git: Git, beforeHead: Sha, after: Repo): Repo {
    if after.head != beforeHead && ShowsTier0(git, TreeOf(after.commits, beforeHead), Head(after))
    then after.(head := beforeHead)
    else after
  }

  /** The status dictionary that the wrapper reads in a state: empty when the command fails. */
  function Read(git: Git, r: Repo): map<Path, string> {
    if git.status(r).Some? then Dictionary(git.status(r).value) else map[]
  }

  function Found(git: Git, status: map<Path, string>, after: Repo): set<Path> {
    Violations(after.work, status, Read(git, after))
  }

  class Repository {
    var commits: map<Sha, Tree>
    var head: Sha
    var index: Tree
    var work: Tree
    var hidden: set<Path>
    var odd: map<Path, Odd>

    function View(): Repo reads this {
      Repo(commits, head, index, work, hidden, odd)
    }

    method Become(r: Repo)
      modifies this
      ensures View() == r
    {
      commits, head, index, work := r.commits, r.head, r.index, r.work;
      hidden, odd := r.hidden, r.odd;
    }

    method ReadStatus(git: Git) returns (status: map<Path, string>)
      ensures status == Read(git, View())
    {
      var listing := git.status(View());
      if listing.None? {
        return map[];
      }
      var output := Captured(Text(listing.value));
      status := ParsePorcelain(SplitNul(output));
    }

    /** `git reset --soft` to the old HEAD, when the new commits show a violation. */
    method Rewind(git: Git, beforeHead: Sha, resetFails: bool) returns (failed: bool)
      modifies this`head
      ensures failed <==> resetFails && Rewound(git, beforeHead, old(View())) != old(View())
      ensures View() == if failed then old(View()) else Rewound(git, beforeHead, old(View()))
    {
      failed := false;
      if head != beforeHead {
        if ShowsTier0(git, TreeOf(commits, beforeHead), TreeOf(commits, head)) {
          if resetFails {
            return true;
          }
          head := beforeHead;
        }
      }
    }

    /** `git checkout HEAD -- name`; or, for a name that HEAD does not have, `git rm --cached`
        and the deletion of the file. Whether git succeeds is not looked at. */
    method CheckoutRestore(g: Restorer, name: Path)
      modifies this`index, this`work, this`odd
      ensures View() == RestoredOne(g, old(View()), name)
    {
      var tree := TreeOf(commits, head);
      if name in tree {
        var taken := map p | p in tree && TakesHead(g, tree, name, p) :: tree[p];
        index, work, odd := index + taken, work + taken, odd - taken.Keys;
      } else {
        index := map p | p in index && !Unstages(g, tree, name, p) :: index[p];
        odd := map p | p in odd && !Unstages(g, tree, name, p) :: odd[p];
        work := work - {name};
      }
    }

    /** Restores the names in their order. */
    method RestoreAll(g: Restorer, names: set<Path>)
      modifies this`index, this`work, this`odd
      ensures View() == Restored(g, old(View()), names)
    {
      var todo := names;
      while todo != {}
        invariant Restored(g, View(), todo) == Restored(g, old(View()), names)
        decreases todo
      {
        HasLeast(todo);
        LeastIsUnique(todo);
        var name :| IsLeast(name, todo);
        CheckoutRestore(g, name);
        todo := todo - {name};
      }
    }

    /** Detects the violations since an earlier status, and restores them. */
    method RevertViolations(git: Git, before: map<Path, string>) returns (violations: set<Path>)
      modifies this`index, this`work, this`odd
      ensures violations == Found(git, before, old(View()))
      ensures View() == Restored(git.restorer, old(View()), violations)
    {
      var after := ReadStatus(git);
      violations := Violations(work, before, after);
      if violations != {} {
        RestoreAll(git.restorer, violations);
      }
    }
  }

  // ---------------------------------------------------------------------------
  // What a call promises
  // ---------------------------------------------------------------------------

  /** HEAD entry, index entry and working content of a path are the same. */
  predicate Kept(before: Repo, after: Repo, p: Path) {
    At(Head(after), p) == At(Head(before), p) && SameEntries(before, after, p)
  }

  predicate SameEntries(before: Repo, after: Repo, p: Path) {
    && Staged(after, p) == Staged(before, p)
    && (p in after.odd <==> p in before.odd) && (p in after.odd ==> after.odd[p] == before.odd[p])
    && At(after.work, p) == At(before.work, p)
  }

  /** Objects are never rewritten: a tool can only add commits. */
  predicate StoreGrows(before: Repo, after: Repo) {
    && before.head in before.commits
    && forall sha | sha in before.commits :: sha in after.commits && after.commits[sha] == before.commits[sha]
  }

  /** A working file that differs from a committed and staged entry, unseen by git. */
  predicate HiddenEdit(r: Repo, p: Path) {
    p in r.hidden && !IsUnmerged(r, p) && At(Head(r), p) == Staged(r, p)
    && (p in r.odd || Staged(r, p) != At(r.work, p))
  }

  /** The listing of a state succeeds, is captured whole, and has no rename in the working
      tree, as it never has when no path is only intended to be added. */
  predicate IsWhole(git: Git, r: Repo) {
    git.status(r).Some? && Fits(git.status(r).value) && NoWorkRenames(git.status(r).value)
  }

  /** The listings before and after are whole, and restoring any path they may list reaches
      that path and no other. */
  ghost predicate Legible(git: Git, before: Repo, after: Repo) {
    && Faithful(git) && IsWhole(git, before) && IsWhole(git, after)
    && forall p | IsPathName(p) && (SeenDirty(before, p) || SeenDirty(after, p)) ::
         IsPlain(p) && git.restorer.works(p)
  }

  /** A clean path that tools may not edit: outside the allowlist, or an existing source file
      of a module without tests. The latter is not protected once it is left untracked or as
      added in a conflict. */
  predicate Protected(before: Repo, after: Repo, p: Path) {
    && IsPathName(p) && !Dirty(before, p)
    && (!InTier1(p)
        || (&& p in Head(after) && BootstrapBlocked(after.work, p)
            && !Untracked(after, p) && !AddedInConflict(after, p)))
  }

  /** Of the protected paths exactly those that git shows as edited are reported, and a path
      is as it was exactly if no commit that stands changed it and no edit is hidden. */
  ghost predicate Guards(before: Repo, after: Repo, end: Repo, reported: set<Path>) {
    forall p | Protected(before, after, p) ::
      && (p in reported <==> Dirty(after, p) && !HiddenEdit(after, p))
      && (Kept(before, end, p) <==> At(Head(after), p) == At(Head(before), p) && !HiddenEdit(after, p))
  }

  /** Changes committed to paths outside the allowlist are undone, if the diff names every
      changed path; allowlisted changes are not. */
  ghost predicate Undoes(git: Git, resetFails: bool, before: Repo, tool: Repo, outcome: Outcome, head: Sha) {
    var a, b := Head(before), Head(tool);
    var diff := git.diff(a, b);
    && (&& tool.head != before.head
        && (diff.None?
            || ((forall q | Changed(a, b, q) :: q in diff.value)
                && exists p :: Changed(a, b, p) && !InTier1(p) && !HasEdgeSpace(p)))
        ==>
        (outcome.ResetFailed? <==> resetFails) && head == if resetFails then tool.head else before.head)
    && (&& diff.Some?
        && (forall p | Changed(a, b, p) :: InTier1(p) && IsOrdinary(p) && !HasEdgeSpace(p))
        ==>
        !outcome.ResetFailed? && head == tool.head)
    && (tool.head == before.head ==> !outcome.ResetFailed? && head == tool.head)
  }

  /** White space at an end of a name is lost when the diff's text is stripped. */
  predicate HasEdgeSpace(p: Path) {
    p == "" || p[0] == ' ' || p[|p| - 1] == ' '
  }

  function LivePaths(outcome: Outcome): set<Path> {
    if outcome.LiveReverted? then outcome.paths else {}
  }

  function WorktreePaths(outcome: Outcome): set<Path> {
    if outcome.Reverted? then outcome.paths else {}
  }

  /** What is known before the tool runs: HEAD and the two status listings. */
  datatype Snapshot = Snapshot(head: Sha, status: map<Path, string>, live: map<Path, string>)

  function Snap(git: Git, before: Repo, liveBefore: Repo): Snapshot {
    Snapshot(before.head, Read(git, before), Read(git, liveBefore))
  }

  /** How a call ends: what it reports, and the two repositories it leaves. */
  ghost predicate Settled(git: Git, linked: bool, resetFails: bool, snap: Snapshot,
                          tool: Repo, toolLive: Repo, outcome: Outcome, end: Repo, liveEnd: Repo)
  {
    var rewound := Rewound(git, snap.head, tool);
    var found := Found(git, snap.status, rewound);
    var liveFound := if linked then Found(git, snap.live, toolLive) else {};
    if rewound != tool && resetFails then
      outcome == ResetFailed && end == tool && liveEnd == toolLive
    else if liveFound != {} then
      && outcome == LiveReverted(liveFound)
      && end == rewound && liveEnd == Restored(git.restorer, toolLive, liveFound)
    else
      && outcome == (if found == {} then Passed else Reverted(found))
      && end == Restored(git.restorer, rewound, found) && liveEnd == toolLive
  }

  class Enforcer {
    const worktree: Repository
    const live: Repository

    constructor (worktree: Repository, live: Repository)
      ensures this.worktree == worktree && this.live == live
    {
      this.worktree, this.live := worktree, live;
    }

    /** The wrapper's work after the tool has run. */
    method Enforce(git: Git, linked: bool, resetFails: bool, snap: Snapshot) returns (outcome: Outcome)
      requires worktree != live
      modifies worktree, live
      ensures Settled(git, linked, resetFails, snap, old(worktree.View()), old(live.View()),
                      outcome, worktree.View(), live.View())
    {
      var failed := worktree.Rewind(git, snap.head, resetFails);
      if failed {
        return ResetFailed;
      }
      var after := worktree.ReadStatus(git);
      var violations := Violations(worktree.work, snap.status, after);
      if linked {
        var liveViolations := live.RevertViolations(git, snap.live);
        if liveViolations != {} {
          return LiveReverted(liveViolations);
        }
      }
      if violations == {} {
        return Passed;
      }
      worktree.RestoreAll(git.restorer, violations);
      return Reverted(violations);
    }

    /** Runs a tool, whose effect on the two repositories is arbitrary, and enforces
        the boundary. `linked` says that the worktree is not the main repository. */
    method Execute(git: Git, linked: bool, resetFails: bool, tool: Repo, toolLive: Repo)
      returns (outcome: Outcome)
      requires worktree != live
      modifies worktree, live
      ensures Settled(git, linked, resetFails, Snap(git, old(worktree.View()), old(live.View())),
                      tool, toolLive, outcome, worktree.View(), live.View())
      ensures outcome.Passed? || outcome.Reverted? ==>
        worktree.View() == Enforced(git, old(worktree.View()), tool)
      ensures linked && !outcome.ResetFailed? && Legible(git, old(live.View()), toolLive) ==>
        Guards(old(live.View()), toolLive, live.View(), LivePaths(outcome))
      ensures outcome.Passed? || outcome.Reverted? ==>
        var after := tool.(head := worktree.head);
        Legible(git, old(worktree.View()), after) ==>
          Guards(old(worktree.View()), after, worktree.View(), WorktreePaths(outcome))
      ensures !outcome.LiveReverted? ==> live.View() == toolLive
      ensures !outcome.Reverted? ==> worktree.View() == tool.(head := worktree.head)
      ensures outcome.LiveReverted? ==> linked && outcome.paths != {}
      ensures outcome.Reverted? ==> outcome.paths != {}
      ensures Faithful(git) && StoreGrows(old(worktree.View()), tool) ==>
        Undoes(git, resetFails, old(worktree.View()), tool, outcome, worktree.head)
    {
      hide Settled, Guards, Legible, Undoes, Faithful, StoreGrows, Enforced, Read;
      var status := worktree.ReadStatus(git);
      var liveStatus := live.ReadStatus(git);
      var snap := Snapshot(worktree.head, status, liveStatus);
      worktree.Become(tool);
      live.Become(toolLive);
      outcome := Enforce(git, linked, resetFails, snap);
      SettledGuards(git, linked, resetFails, old(worktree.View()), old(live.View()), tool, toolLive,
                    outcome, worktree.View(), live.View());
      SettledStates(git, linked, resetFails, old(worktree.View()), old(live.View()), tool, toolLive,
                    outcome, worktree.View(), live.View());
      if Faithful(git) && StoreGrows(old(worktree.View()), tool) {
        SettledUndoes(git, linked, resetFails, old(worktree.View()), old(live.View()), tool, toolLive,
                      outcome, worktree.View(), live.View());
      }
    }
  }

  // ---------------------------------------------------------------------------
  // What the wrapper guarantees
  // ---------------------------------------------------------------------------

  /** What is found in the worktree after the tool, and is restored. */
  function Violating(git: Git, before: Repo, tool: Repo): set<Path> {
    Found(git, Read(git, before), Rewound(git, before.head, tool))
  }

  /** The worktree at the end of a call that was not cut short. */
  ghost function Enforced(git: Git, before: Repo, tool: Repo): Repo {
    Restored(git.restorer, Rewound(git, before.head, tool), Violating(git, before, tool))
  }

  /** The two dictionaries that are read differ at this path. */
  predicate Shown(git: Git, before: Repo, after: Repo, p: Path) {
    CodeAt(Read(git, before), p) != CodeAt(Read(git, after), p)
  }

  lemma Tier0IsFoundIfShown(git: Git, before: Repo, after: Repo, p: Path)
    requires !InTier1(p)
    ensures p in Found(git, Read(git, before), after) <==> Shown(git, before, after, p)
  {
    hide Dictionary, InTier1;
  }

  /** The names are no patterns, and the commands that restore them succeed. */
  predicate RestoresPlainly(git: Git, names: set<Path>) {
    forall s | s in names :: IsPlain(s) && git.restorer.works(s)
  }

  /** If the names found are restored plainly, a path outside the allowlist ends clean
      exactly when it was clean or is shown. It holds of the live repository as well. */
  lemma Tier0EndsClean(git: Git, before: Repo, after: Repo, p: Path)
    requires Faithful(git) && !InTier1(p) && RestoresPlainly(git, Found(git, Read(git, before), after))
    ensures var end := Restored(git.restorer, after, Found(git, Read(git, before), after));
      !Dirty(end, p) <==> !Dirty(after, p) || Shown(git, before, after, p)
  {
    hide Found, Dirty, Shown, InTier1, EndsClean;
    var found := Found(git, Read(git, before), after);
    RestoredExactly(git.restorer, after, found, p);
    PlainNamesEndClean(git.restorer, after, found, p);
    Tier0IsFoundIfShown(git, before, after, p);
  }

  /** Of listings that are captured whole, a path that was clean is shown exactly when it
      looks dirty, which is when it is dirty and its change is not hidden from git. */
  lemma ShownExactly(git: Git, before: Repo, after: Repo, p: Path)
    requires Faithful(git) && IsWhole(git, before) && IsWhole(git, after)
    requires IsPathName(p) && !Dirty(before, p)
    ensures Shown(git, before, after, p) <==> Dirty(after, p) && !HiddenEdit(after, p)
  {
    hide Dictionary;
    StatusKeysAreDirty(git.status(before).value, before, p);
    StatusKeysAreDirty(git.status(after).value, after, p);
    ReadCodesNonEmpty(git, after);
  }

  /** The listing of a state has no rename in the working tree, if it succeeds. */
  predicate IsStraight(git: Git, r: Repo) {
    git.status(r).Some? ==> NoWorkRenames(git.status(r).value)
  }

  /** Captured whole or not, a path that was clean is shown exactly when it is read of the
      later listing, and then it is dirty; but for names that end like the mark of a cut. */
  lemma ShownIsRead(git: Git, before: Repo, after: Repo, p: Path)
    requires Faithful(git) && IsStraight(git, before) && IsStraight(git, after)
    requires IsPathName(p) && !EndsLikeMark(p) && !Dirty(before, p)
    ensures Shown(git, before, after, p) <==> p in Read(git, after)
    ensures Shown(git, before, after, p) ==> Dirty(after, p) && !HiddenEdit(after, p)
  {
    hide Dictionary;
    ReadIsSeen(git, before, p);
    ReadIsSeen(git, after, p);
    ReadCodesNonEmpty(git, after);
  }

  lemma ReadIsSeen(git: Git, r: Repo, p: Path)
    requires Faithful(git) && IsStraight(git, r) && IsPathName(p) && !EndsLikeMark(p)
    ensures p in Read(git, r) ==> SeenDirty(r, p)
  {
    hide Dictionary, SeenDirty;
    if git.status(r).Some? {
      ReadIsSeenDirty(git.status(r).value, r, p);
    }
  }

  lemma ReadCodesNonEmpty(git: Git, r: Repo)
    ensures forall p | p in Read(git, r) :: Read(git, r)[p] != ""
  {
    if git.status(r).Some? {
      ParsedCodesNonEmpty(map[], SplitNul(Captured(Text(git.status(r).value))));
    }
  }

  /** The wrapper undid the tool's commits, or they left the entry of this path alone. */
  predicate CommitSpares(git: Git, before: Repo, tool: Repo, p: Path) {
    || tool.head == before.head
    || ShowsTier0(git, Head(before), Head(tool))
    || !Changed(Head(before), Head(tool), p)
  }

  /** A clean path is untouched exactly when no commit that stands changed its entry, and it
      ends clean. */
  lemma KeptExactly(git: Git, before: Repo, tool: Repo, p: Path)
    requires StoreGrows(before, tool) && !Dirty(before, p)
    ensures Kept(before, Enforced(git, before, tool), p) <==>
      && CommitSpares(git, before, tool, p)
      && EndsClean(git.restorer, Rewound(git, before.head, tool), Violating(git, before, tool), p)
  {
    hide ShowsTier0, Found, EndsClean;
    RestoredExactly(git.restorer, Rewound(git, before.head, tool), Violating(git, before, tool), p);
  }

  /** If the names found are restored plainly, a clean path outside the allowlist is untouched
      exactly when no commit that stands changed its entry, and any dirt is shown. */
  lemma Tier0KeptExactly(git: Git, before: Repo, tool: Repo, p: Path)
    requires Faithful(git) && StoreGrows(before, tool) && RestoresPlainly(git, Violating(git, before, tool))
    requires !InTier1(p) && !Dirty(before, p)
    ensures var rewound := Rewound(git, before.head, tool);
      Kept(before, Enforced(git, before, tool), p) <==>
        CommitSpares(git, before, tool, p) && (!Dirty(rewound, p) || Shown(git, before, rewound, p))
  {
    hide InTier1, Shown, CommitSpares, Found, Dirty, EndsClean, Rewound, Kept;
    var rewound := Rewound(git, before.head, tool);
    KeptExactly(git, before, tool, p);
    PlainNamesEndClean(git.restorer, rewound, Violating(git, before, tool), p);
    Tier0IsFoundIfShown(git, before, rewound, p);
  }

  /** A path the boundary is there for. */
  predicate Guarded(before: Repo, p: Path) {
    IsPathName(p) && !InTier1(p) && !Dirty(before, p)
  }

  /** A commit of the tool changes a guarded path, and git shows the commit's diff with
      allowlisted paths only: either the path was moved, to an allowlisted name as far as
      is read, or it is read without the space at its end. */
  ghost predicate HidingCommit(git: Git, before: Repo, tool: Repo) {
    var a, b := Head(before), Head(tool);
    && tool.head != before.head && !ShowsTier0(git, a, b)
    && exists p :: Guarded(before, p) && (MovesAway(a, b, p) || (HasEdgeSpace(p) && Changed(a, b, p)))
  }

  ghost predicate MovesAway(a: Tree, b: Tree, p: Path) {
    exists q :: (InTier1(q) || HasEdgeSpace(q)) && RenameOf(a, b, p, q)
  }

  /** A name that the diff prints is read as printed, unless it has white space at an end. */
  lemma NameIsRead(quote: Path -> string, names: seq<Path>, p: Path)
    requires Quotes(quote) && p in names && !HasEdgeSpace(p)
    ensures quote(p) in DiffRead(quote, names) && quote(p) != ""
    ensures quote(p) == p || quote(p)[0] == '"'
  {
    var lines := DiffLines(quote, names);
    forall i | 0 <= i < |lines| ensures Strings.NoBreaks(lines[i]) {
      assert lines[i] == quote(names[i]);
    }
    var i :| 0 <= i < |names| && names[i] == p;
    assert lines[i] == quote(p);
    Strings.InnerLinesAreRead(lines, quote(p));
  }

  lemma QuotesAreTier0(s: string)
    requires s != "" && s[0] == '"'
    ensures !InTier1(s)
  {
    forall prefix | prefix in Tier1Prefixes() ensures !Covers(prefix, s) {
      assert |prefix| > 1 && prefix[0] != '"';
      assert prefix[..|prefix| - 1][0] == prefix[0];
    }
  }

  /** A path outside the allowlist that is named by a diff which shows none. */
  lemma UnshownName(git: Git, a: Tree, b: Tree, p: Path)
    requires Faithful(git) && git.diff(a, b).Some? && !ShowsTier0(git, a, b)
    requires p in git.diff(a, b).value && !InTier1(p)
    ensures HasEdgeSpace(p)
  {
    hide InTier1, DiffRead, Lists, NamesDiff, TakesStars;
    if !HasEdgeSpace(p) {
      NameIsRead(git.quote, git.diff(a, b).value, p);
      if git.quote(p) != p {
        QuotesAreTier0(git.quote(p));
      }
    }
  }

  lemma HidingCommitMeans(git: Git, before: Repo, tool: Repo)
    requires Faithful(git)
    ensures HidingCommit(git, before, tool) <==> exists p :: Guarded(before, p) && !CommitSpares(git, before, tool, p)
  {
    hide InTier1, ShowsTier0, IsPathName, Dirty, HasEdgeSpace;
    var a, b := Head(before), Head(tool);
    if tool.head != before.head && !ShowsTier0(git, a, b) {
      assert git.diff(a, b).Some? by {
        ShowsTier0OfNone(git, a, b);
      }
      forall p | Guarded(before, p) && Changed(a, b, p) ensures HidingCommit(git, before, tool) {
        var names := git.diff(a, b).value;
        if p in names {
          UnshownName(git, a, b, p);
        } else {
          var q :| q in names && RenameOf(a, b, p, q);
          if !InTier1(q) {
            UnshownName(git, a, b, q);
          }
        }
      }
      forall p, q | RenameOf(a, b, p, q) ensures Changed(a, b, p) {
      }
    }
  }

  lemma ShowsTier0OfNone(git: Git, a: Tree, b: Tree)
    ensures git.diff(a, b).None? ==> ShowsTier0(git, a, b)
  {
  }

  /** The boundary holds for every guarded path exactly when no commit hides a change, and
      every guarded path ends clean by the names that are restored. */
  lemma BoundaryHoldsExactly(git: Git, before: Repo, tool: Repo)
    requires Faithful(git) && StoreGrows(before, tool)
    ensures (forall p | Guarded(before, p) :: Kept(before, Enforced(git, before, tool), p)) <==>
      && !HidingCommit(git, before, tool)
      && forall p | Guarded(before, p) ::
           EndsClean(git.restorer, Rewound(git, before.head, tool), Violating(git, before, tool), p)
  {
    hide Faithful, InTier1, IsPathName, Found, Kept, HidingCommit, Rewound, Enforced, CommitSpares, EndsClean, Dirty;
    HidingCommitMeans(git, before, tool);
    var rewound, found := Rewound(git, before.head, tool), Violating(git, before, tool);
    forall p | Guarded(before, p)
      ensures Kept(before, Enforced(git, before, tool), p) <==>
        CommitSpares(git, before, tool, p) && EndsClean(git.restorer, rewound, found, p)
    {
      KeptExactly(git, before, tool, p);
    }
  }

  /** If the names found are restored plainly: exactly when no commit hides a change, and
      every guarded path that is dirty is shown. */
  lemma BoundaryOfPlainNames(git: Git, before: Repo, tool: Repo)
    requires Faithful(git) && StoreGrows(before, tool) && RestoresPlainly(git, Violating(git, before, tool))
    ensures var rewound := Rewound(git, before.head, tool);
      (forall p | Guarded(before, p) :: Kept(before, Enforced(git, before, tool), p)) <==>
        && !HidingCommit(git, before, tool)
        && forall p | Guarded(before, p) && Dirty(rewound, p) :: Shown(git, before, rewound, p)
  {
    hide InTier1, IsPathName, Found, Kept, HidingCommit, Rewound, Enforced, EndsClean, Shown, Dirty;
    BoundaryHoldsExactly(git, before, tool);
    var rewound, found := Rewound(git, before.head, tool), Violating(git, before, tool);
    forall p | Guarded(before, p)
      ensures EndsClean(git.restorer, rewound, found, p) <==> !Dirty(rewound, p) || Shown(git, before, rewound, p)
    {
      PlainNamesEndClean(git.restorer, rewound, found, p);
      Tier0IsFoundIfShown(git, before, rewound, p);
    }
  }

  /** When both listings are captured whole as well: no commit hides a change, and no change
      of a guarded file is hidden from git. */
  lemma BoundaryOfWholeListings(git: Git, before: Repo, tool: Repo)
    requires Faithful(git) && StoreGrows(before, tool) && RestoresPlainly(git, Violating(git, before, tool))
    requires IsWhole(git, before) && IsWhole(git, Rewound(git, before.head, tool))
    ensures (forall p | Guarded(before, p) :: Kept(before, Enforced(git, before, tool), p)) <==>
      && !HidingCommit(git, before, tool)
      && forall p | Guarded(before, p) :: !HiddenEdit(Rewound(git, before.head, tool), p)
  {
    hide InTier1, IsPathName, Shown, Found, Kept, HidingCommit, Rewound, Enforced, Faithful, IsWhole, Head;
    hide RestoresPlainly;
    var rewound := Rewound(git, before.head, tool);
    BoundaryOfPlainNames(git, before, tool);
    forall p | Guarded(before, p)
      ensures Shown(git, before, rewound, p) <==> Dirty(rewound, p) && !HiddenEdit(rewound, p)
    {
      ShownExactly(git, before, rewound, p);
    }
  }

  /** When the diff names both sides of a rename, a path without space at its ends is never
      changed by a commit that stands. */
  lemma BoundaryWithoutRenames(git: Git, before: Repo, tool: Repo, p: Path)
    requires Faithful(git) && StoreGrows(before, tool)
    requires var diff := git.diff(Head(before), Head(tool));
      diff.Some? ==> forall q :: q in diff.value <==> Changed(Head(before), Head(tool), q)
    requires Guarded(before, p) && !HasEdgeSpace(p)
    ensures Kept(before, Enforced(git, before, tool), p) <==>
      EndsClean(git.restorer, Rewound(git, before.head, tool), Violating(git, before, tool), p)
  {
    hide Rewound, Dirty, Kept, Enforced, InTier1, EndsClean, ShowsTier0, Found;
    KeptExactly(git, before, tool, p);
    var a, b := Head(before), Head(tool);
    ShowsTier0OfNone(git, a, b);
    if !ShowsTier0(git, a, b) && Changed(a, b, p) {
      UnshownName(git, a, b, p);
    }
  }

  /** A name that is restored reaches this path. */
  predicate Reaches(git: Git, head: Tree, s: Path, p: Path) {
    TakesHead(git.restorer, head, s, p) || Unstages(git.restorer, head, s, p)
  }

  /** Allowlisted work, in a module with tests or outside source files, stays as it is if no
      restored name reaches it, whatever git lists. A new file keeps its content in any
      case, and its place in the index exactly then. */
  lemma AllowedWorkStays(git: Git, before: Repo, tool: Repo, p: Path)
    requires InTier1(p) && !BootstrapBlocked(tool.work, p)
    ensures var rewound, end := Rewound(git, before.head, tool), Enforced(git, before, tool);
      var reached := exists s :: s in Violating(git, before, tool) && Reaches(git, Head(rewound), s, p);
      && (!reached ==> SameEntries(tool, end, p))
      && (p !in Head(rewound) ==>
            && At(end.work, p) == At(tool.work, p)
            && (IsTracked(tool, p) ==> (IsTracked(end, p) <==> !reached)))
  {
    hide InTier1, BootstrapBlocked, Dictionary;
    var rewound := Rewound(git, before.head, tool);
    assert rewound.work == tool.work && rewound.index == tool.index && rewound.odd == tool.odd;
    assert p !in Violating(git, before, tool);
    hide Found, Rewound, TakesHead, Unstages;
    if exists s :: s in Violating(git, before, tool) && Reaches(git, Head(rewound), s, p) {
      if p !in Head(rewound) {
        assert forall s :: !TakesHead(git.restorer, Head(rewound), s, p) by {
          NothingToTake(git.restorer, Head(rewound), p);
        }
        NewFileRestored(git.restorer, rewound, Violating(git, before, tool), p);
      }
    } else {
      NotReachedStays(git.restorer, rewound, Violating(git, before, tool), p);
      StaysTracked(rewound, Enforced(git, before, tool), p);
    }
  }

  /** A clean existing source file of a module without tests. */
  predicate Bootstrapped(before: Repo, tool: Repo, p: Path) {
    InTier1(p) && !Dirty(before, p) && p in Head(before) && BootstrapBlocked(tool.work, p)
  }

  /** Such a file is a violation exactly when it is shown with a code that does not look new. */
  lemma BootstrappedIsFound(git: Git, before: Repo, tool: Repo, p: Path)
    requires Bootstrapped(before, tool, p)
    ensures var rewound := Rewound(git, before.head, tool);
      p in Violating(git, before, tool) <==>
        && Shown(git, before, rewound, p)
        && !IsNew(LastCode(Read(git, before), Read(git, rewound), p))
  {
    hide InTier1, BootstrapBlocked, Dictionary, IsNew, LastCode;
    assert Rewound(git, before.head, tool).work == tool.work;
  }

  /** The bootstrap rule, if the names found are restored plainly: such a file is untouched
      exactly when no commit that stands changed it, and any dirt is shown with a code that
      does not look new. */
  lemma BootstrapKeptExactly(git: Git, before: Repo, tool: Repo, p: Path)
    requires Faithful(git) && StoreGrows(before, tool) && RestoresPlainly(git, Violating(git, before, tool))
    requires Bootstrapped(before, tool, p)
    ensures var rewound := Rewound(git, before.head, tool);
      Kept(before, Enforced(git, before, tool), p) <==>
        && CommitSpares(git, before, tool, p)
        && (|| !Dirty(rewound, p)
            || (&& Shown(git, before, rewound, p)
                && !IsNew(LastCode(Read(git, before), Read(git, rewound), p))))
  {
    hide InTier1, BootstrapBlocked, IsNew, LastCode, Found, Rewound, Kept, EndsClean, Shown, CommitSpares;
    KeptExactly(git, before, tool, p);
    BootstrappedIsFound(git, before, tool, p);
    PlainNamesEndClean(git.restorer, Rewound(git, before.head, tool), Violating(git, before, tool), p);
  }

  /** When both listings are captured whole: exactly when no commit that stands changed it, it
      was not left untracked or as added in a conflict, and no change of it is hidden. */
  lemma BootstrapOfWholeListings(git: Git, before: Repo, tool: Repo, p: Path)
    requires Faithful(git) && StoreGrows(before, tool) && RestoresPlainly(git, Violating(git, before, tool))
    requires IsWhole(git, before) && IsWhole(git, Rewound(git, before.head, tool))
    requires IsPathName(p) && Bootstrapped(before, tool, p)
    ensures var rewound := Rewound(git, before.head, tool);
      Kept(before, Enforced(git, before, tool), p) <==>
        && CommitSpares(git, before, tool, p)
        && !Untracked(rewound, p) && !AddedInConflict(rewound, p) && !HiddenEdit(rewound, p)
  {
    hide InTier1, BootstrapBlocked, Dictionary, Kept, Enforced, Rewound, Found, Fits, ShowsTier0, RestoresPlainly;
    var rewound := Rewound(git, before.head, tool);
    BootstrapKeptExactly(git, before, tool, p);
    ShownExactly(git, before, rewound, p);
    StatusKeysAreDirty(git.status(before).value, before, p);
    StatusKeysAreDirty(git.status(rewound).value, rewound, p);
    if CommitSpares(git, before, tool, p) {
      HeadKept(git, before, tool, p);
      if SeenDirty(rewound, p) {
        LooksNew(git.status(rewound).value, rewound, p);
      }
    }
  }

  lemma HeadKept(git: Git, before: Repo, tool: Repo, p: Path)
    requires StoreGrows(before, tool) && CommitSpares(git, before, tool, p)
    ensures At(Head(Rewound(git, before.head, tool)), p) == At(Head(before), p)
  {
    hide ShowsTier0;
  }

  // ---------------------------------------------------------------------------
  // What is promised of a whole call
  // ---------------------------------------------------------------------------

  lemma {:induction false} RecordedNames(d: map<Path, string>, entries: seq<Entry>)
    requires AllReadable(entries) && forall p | p in d :: IsPathName(p)
    ensures forall p | p in RecordAll(d, entries) :: IsPathName(p)
    decreases entries
  {
    if entries != [] {
      var e := entries[0];
      assert Readable(e);
      RecordedNames(Record(d, e), entries[1..]);
    }
  }

  /** Every path that is read of a whole listing looks dirty. */
  lemma ReadOfWhole(git: Git, r: Repo, p: Path)
    requires Faithful(git) && IsWhole(git, r) && p in Read(git, r)
    ensures IsPathName(p) && SeenDirty(r, p)
  {
    hide Dictionary, IsPathName, SeenDirty, RecordAll, Fits;
    var entries := git.status(r).value;
    ListingIsReadable(entries, r);
    DictionaryOfWhole(entries);
    RecordedNames(map[], entries);
    StatusKeysAreDirty(entries, r, p);
  }

  lemma LegibleRestores(git: Git, before: Repo, after: Repo)
    requires Legible(git, before, after)
    ensures RestoresPlainly(git, Found(git, Read(git, before), after))
  {
    hide Faithful, IsWhole, IsPathName, SeenDirty, IsPlain, Read, IsViolation;
    forall p | p in Found(git, Read(git, before), after) ensures IsPlain(p) && git.restorer.works(p) {
      if p in Read(git, before) {
        ReadOfWhole(git, before, p);
      } else {
        ReadOfWhole(git, after, p);
      }
    }
  }

  lemma ProtectedIsFound(git: Git, before: Repo, after: Repo, p: Path)
    requires Legible(git, before, after) && Protected(before, after, p)
    ensures p in Found(git, Read(git, before), after) <==> Dirty(after, p) && !HiddenEdit(after, p)
  {
    ShownExactly(git, before, after, p);
    StatusKeysAreDirty(git.status(before).value, before, p);
    StatusKeysAreDirty(git.status(after).value, after, p);
    if InTier1(p) && SeenDirty(after, p) {
      LooksNew(git.status(after).value, after, p);
    }
    hide Dictionary, InTier1, BootstrapBlocked, Untracked, AddedInConflict, IsPathName, Faithful, IsWhole, Fits;
  }

  lemma CleanIsKept(before: Repo, end: Repo, p: Path)
    requires !Dirty(before, p)
    ensures Kept(before, end, p) <==> !Dirty(end, p) && At(Head(end), p) == At(Head(before), p)
  {
  }

  lemma FoundGuards(git: Git, before: Repo, after: Repo)
    requires Legible(git, before, after)
    ensures var found := Found(git, Read(git, before), after);
      Guards(before, after, Restored(git.restorer, after, found), found)
  {
    assert TakesStars(git.restorer);
    hide Kept, Dirty, Found, InTier1, BootstrapBlocked, IsPathName, Faithful, IsWhole;
    var found := Found(git, Read(git, before), after);
    var end := Restored(git.restorer, after, found);
    LegibleRestores(git, before, after);
    forall p | Protected(before, after, p)
      ensures p in found <==> Dirty(after, p) && !HiddenEdit(after, p)
      ensures Kept(before, end, p) <==> At(Head(after), p) == At(Head(before), p) && !HiddenEdit(after, p)
    {
      ProtectedIsFound(git, before, after, p);
      RestoredExactly(git.restorer, after, found, p);
      PlainNamesEndClean(git.restorer, after, found, p);
      CleanIsKept(before, end, p);
      HiddenEditIsDirty(after, p);
    }
  }

  lemma HiddenEditIsDirty(r: Repo, p: Path)
    ensures HiddenEdit(r, p) ==> Dirty(r, p)
  {
  }

  /** A call keeps both boundaries, as far as it comes to enforce them. */
  lemma SettledGuards(git: Git, linked: bool, resetFails: bool, before: Repo, liveBefore: Repo,
                      tool: Repo, toolLive: Repo, outcome: Outcome, end: Repo, liveEnd: Repo)
    requires Settled(git, linked, resetFails, Snap(git, before, liveBefore), tool, toolLive, outcome, end, liveEnd)
    ensures linked && !outcome.ResetFailed? && Legible(git, liveBefore, toolLive) ==>
      Guards(liveBefore, toolLive, liveEnd, LivePaths(outcome))
    ensures (outcome.Passed? || outcome.Reverted?) && Legible(git, before, tool.(head := end.head)) ==>
      Guards(before, tool.(head := end.head), end, WorktreePaths(outcome))
  {
    hide Guards, Legible, Found, ShowsTier0;
    if linked && Legible(git, liveBefore, toolLive) {
      FoundGuards(git, liveBefore, toolLive);
    }
    if Legible(git, before, tool.(head := end.head)) {
      FoundGuards(git, before, tool.(head := end.head));
    }
  }

  /** Which outcomes there are, and what they leave alone. */
  lemma SettledStates(git: Git, linked: bool, resetFails: bool, before: Repo, liveBefore: Repo,
                      tool: Repo, toolLive: Repo, outcome: Outcome, end: Repo, liveEnd: Repo)
    requires Settled(git, linked, resetFails, Snap(git, before, liveBefore), tool, toolLive, outcome, end, liveEnd)
    ensures outcome.Passed? || outcome.Reverted? ==> end == Enforced(git, before, tool)
    ensures !outcome.LiveReverted? ==> liveEnd == toolLive
    ensures !outcome.Reverted? ==> end == tool.(head := end.head)
    ensures outcome.LiveReverted? ==> linked && outcome.paths != {}
    ensures outcome.Reverted? ==> outcome.paths != {}
  {
    hide Found, ShowsTier0, Read;
  }

  lemma ShowsOutsideChange(git: Git, a: Tree, b: Tree, p: Path)
    requires Faithful(git) && Changed(a, b, p) && !InTier1(p) && !HasEdgeSpace(p)
    requires git.diff(a, b).Some? ==> p in git.diff(a, b).value
    ensures ShowsTier0(git, a, b)
  {
    hide InTier1, Changed;
    ShowsTier0OfNone(git, a, b);
    if !ShowsTier0(git, a, b) {
      UnshownName(git, a, b, p);
    }
  }

  lemma AllowedChangesUnshown(git: Git, a: Tree, b: Tree)
    requires Faithful(git) && git.diff(a, b).Some?
    requires forall p | Changed(a, b, p) :: InTier1(p) && IsOrdinary(p) && !HasEdgeSpace(p)
    ensures !ShowsTier0(git, a, b)
  {
    hide InTier1, Changed;
    var names := git.diff(a, b).value;
    var lines := DiffLines(git.quote, names);
    forall i | 0 <= i < |lines| ensures InTier1(lines[i]) && Strings.NoBreaks(lines[i]) && Strings.IsInner(lines[i]) {
      assert names[i] in names && lines[i] == names[i];
    }
    Strings.AllInnerLinesAreRead(lines);
  }

  lemma SettledHead(git: Git, linked: bool, resetFails: bool, before: Repo, liveBefore: Repo,
                    tool: Repo, toolLive: Repo, outcome: Outcome, end: Repo, liveEnd: Repo)
    requires Settled(git, linked, resetFails, Snap(git, before, liveBefore), tool, toolLive, outcome, end, liveEnd)
    requires StoreGrows(before, tool)
    ensures var undone := tool.head != before.head && ShowsTier0(git, Head(before), Head(tool));
      && (outcome.ResetFailed? <==> resetFails && undone)
      && end.head == if undone && !resetFails then before.head else tool.head
  {
    hide ShowsTier0, Found, Read;
  }

  /** A call undoes the commits that leave the allowlist, and no other. */
  lemma SettledUndoes(git: Git, linked: bool, resetFails: bool, before: Repo, liveBefore: Repo,
                      tool: Repo, toolLive: Repo, outcome: Outcome, end: Repo, liveEnd: Repo)
    requires Settled(git, linked, resetFails, Snap(git, before, liveBefore), tool, toolLive, outcome, end, liveEnd)
    requires Faithful(git) && StoreGrows(before, tool)
    ensures Undoes(git, resetFails, before, tool, outcome, end.head)
  {
    SettledHead(git, linked, resetFails, before, liveBefore, tool, toolLive, outcome, end, liveEnd);
    hide Faithful, InTier1, ShowsTier0, Changed, HasEdgeSpace, IsOrdinary, Settled;
    var a, b := Head(before), Head(tool);
    var diff := git.diff(a, b);
    ShowsTier0OfNone(git, a, b);
    if diff.Some? {
      if (forall q | Changed(a, b, q) :: q in diff.value)
        && exists p :: Changed(a, b, p) && !InTier1(p) && !HasEdgeSpace(p)
      {
        var p :| Changed(a, b, p) && !InTier1(p) && !HasEdgeSpace(p);
        ShowsOutsideChange(git, a, b, p);
      }
      if forall p | Changed(a, b, p) :: InTier1(p) && IsOrdinary(p) && !HasEdgeSpace(p) {
        AllowedChangesUnshown(git, a, b);
      }
    }
  }
}

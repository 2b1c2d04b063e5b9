/** Putting paths back to their HEAD entries: one git command for each name, in the order of
    the names. Git takes a name as a pattern, so a command may reach other paths. */
module Restoring {
  import opened GitModel
  import opened Options
  import opened Splitting

  // ---------------------------------------------------------------------------
  // The order of names
  // ---------------------------------------------------------------------------

  predicate Less(a: string, b: string) {
    b != "" && (a == "" || a[0] < b[0] || (a[0] == b[0] && Less(a[1..], b[1..])))
  }

  lemma {:induction false} LessIsStrict(a: string)
    ensures !Less(a, a)
  {
    if a != "" {
      LessIsStrict(a[1..]);
    }
  }

  lemma {:induction false} LessIsTotal(a: string, b: string)
    ensures a == b || Less(a, b) || Less(b, a)
  {
    if a != "" && b != "" && a[0] == b[0] {
      LessIsTotal(a[1..], b[1..]);
      assert a == [a[0]] + a[1..] && b == [b[0]] + b[1..];
    }
  }

  lemma {:induction false} LessIsTransitive(a: string, b: string, c: string)
    requires Less(a, b) && Less(b, c)
    ensures Less(a, c)
  {
    if a != "" && a[0] == b[0] == c[0] {
      LessIsTransitive(a[1..], b[1..], c[1..]);
    }
  }

  /** Names are in order by the first character in which they differ, and a name comes before
      those that go on after it. */
  lemma {:induction false} FirstDifferenceDecides(common: string, a: string, b: string)
    requires a != "" && b != "" ==> a[0] != b[0]
    ensures Less(common + a, common + b) <==> b != "" && (a == "" || a[0] < b[0])
  {
    if common == "" {
      assert common + a == a && common + b == b;
    } else {
      assert (common + a)[1..] == common[1..] + a && (common + b)[1..] == common[1..] + b;
      FirstDifferenceDecides(common[1..], a, b);
    }
  }

  predicate IsLeast(s: Path, paths: set<Path>) {
    s in paths && forall q | q in paths :: q == s || Less(s, q)
  }

  lemma {:induction false} HasLeast(paths: set<Path>)
    requires paths != {}
    ensures exists s :: IsLeast(s, paths)
  {
    var p :| p in paths;
    if paths == {p} {
      assert IsLeast(p, paths);
    } else {
      HasLeast(paths - {p});
      var s :| IsLeast(s, paths - {p});
      LessIsTotal(p, s);
      if Less(p, s) {
        forall q | q in paths ensures q == p || Less(p, q) {
          if q != p && q != s {
            LessIsTransitive(p, s, q);
          }
        }
        assert IsLeast(p, paths);
      } else {
        assert IsLeast(s, paths);
      }
    }
  }

  ghost function Least(paths: set<Path>): (s: Path)
    requires paths != {}
    ensures IsLeast(s, paths)
  {
    HasLeast(paths);
    var s :| IsLeast(s, paths);
    s
  }

  lemma LeastIsUnique(paths: set<Path>)
    ensures forall s, t | IsLeast(s, paths) && IsLeast(t, paths) :: s == t
  {
    forall s, t | IsLeast(s, paths) && IsLeast(t, paths) ensures s == t {
      if s != t {
        LessIsTransitive(s, t, s);
        LessIsStrict(s);
      }
    }
  }

  // ---------------------------------------------------------------------------
  // Names as patterns
  // ---------------------------------------------------------------------------

  /** A star stands for any characters, slashes included. */
  predicate Glob(pattern: string, name: string)
    decreases |pattern| + |name|
  {
    if pattern == "" then name == ""
    else if pattern[0] == '*' then Glob(pattern[1..], name) || (name != "" && Glob(pattern, name[1..]))
    else name != "" && pattern[0] == name[0] && Glob(pattern[1..], name[1..])
  }

  /** No other character than a star has a meaning of its own. */
  predicate OnlyStars(spec: string) {
    spec != "" && spec[0] != ':' && Lacks(spec, '?') && Lacks(spec, '[') && Lacks(spec, '\\')
  }

  /** A name that is no pattern. */
  predicate IsPlain(spec: string) {
    OnlyStars(spec) && Lacks(spec, '*')
  }

  /** How git takes a name in a command that restores it: which paths it matches, and whether
      the command succeeds, which the wrapper does not look at. */
  datatype Restorer = Restorer(matches: (string, Path) -> bool, works: Path -> bool)

  ghost predicate TakesStars(g: Restorer) {
    forall s, p | OnlyStars(s) :: g.matches(s, p) <==> Glob(s, p)
  }

  lemma {:induction false} GlobOfPlain(spec: string, p: Path)
    requires Lacks(spec, '*')
    ensures Glob(spec, p) <==> spec == p
  {
    if spec != "" {
      assert spec[0] != '*';
      if p != "" && spec[0] == p[0] {
        assert forall i | 0 <= i < |spec[1..]| :: spec[1..][i] == spec[i + 1];
        GlobOfPlain(spec[1..], p[1..]);
        assert spec == [spec[0]] + spec[1..] && p == [p[0]] + p[1..];
      }
    }
  }

  lemma {:induction false} StarMatchesAll(p: Path)
    ensures Glob("*", p)
  {
    assert Glob("*"[1..], "");
    if p != "" {
      StarMatchesAll(p[1..]);
    }
  }

  // ---------------------------------------------------------------------------
  // Restoring
  // ---------------------------------------------------------------------------

  /** The paths whose HEAD entries `git checkout HEAD -- name` takes. */
  predicate TakesHead(g: Restorer, head: Tree, s: Path, p: Path) {
    s in head && g.works(s) && p in head && g.matches(s, p)
  }

  /** The paths that `git rm --cached -- name` takes out of the index. */
  predicate Unstages(g: Restorer, head: Tree, s: Path, p: Path) {
    s !in head && g.works(s) && g.matches(s, p)
  }

  function CheckedOut(g: Restorer, r: Repo, s: Path): Repo {
    var taken := map p | p in Head(r) && TakesHead(g, Head(r), s, p) :: Head(r)[p];
    r.(index := r.index + taken, work := r.work + taken, odd := r.odd - taken.Keys)
  }

  function Removed(g: Restorer, r: Repo, s: Path): Repo {
    var head := Head(r);
    r.(index := map p | p in r.index && !Unstages(g, head, s, p) :: r.index[p],
       odd := map p | p in r.odd && !Unstages(g, head, s, p) :: r.odd[p],
       work := r.work - {s})
  }

  /** The repository after one name was restored. */
  function RestoredOne(g: Restorer, r: Repo, s: Path): Repo {
    if s in Head(r) then CheckedOut(g, r, s) else Removed(g, r, s)
  }

  /** The repository after these names were restored in order. */
  ghost function Restored(g: Restorer, r: Repo, names: set<Path>): (r': Repo)
    ensures r'.commits == r.commits && r'.head == r.head && r'.hidden == r.hidden
    decreases names
  {
    if names == {} then r
    else
      var s := Least(names);
      Restored(g, RestoredOne(g, r, s), names - {s})
  }

  /** What one name does to one path. */
  lemma EffectOfOne(g: Restorer, r: Repo, s: Path, p: Path)
    ensures var r', head := RestoredOne(g, r, s), Head(r);
      if TakesHead(g, head, s, p) then !Dirty(r', p)
      else
        && Staged(r', p) == (if Unstages(g, head, s, p) then None else Staged(r, p))
        && (p in r'.odd <==> p in r.odd && !Unstages(g, head, s, p))
        && (p in r'.odd ==> r'.odd[p] == r.odd[p])
        && At(r'.work, p) == (if s !in head && s == p then None else At(r.work, p))
  {
  }

  // ---------------------------------------------------------------------------
  // Which paths end clean
  // ---------------------------------------------------------------------------

  predicate IsTracked(r: Repo, p: Path) {
    p in r.odd || p in r.index
  }

  /** A path that HEAD has ends clean when it was clean or some name takes it from HEAD, and
      no name that comes after all such unstages it. A path that HEAD does not have ends
      clean when it is in the index no more, by any name, and its file was deleted by its
      own name, unless there was none. */
  ghost predicate EndsClean(g: Restorer, r: Repo, names: set<Path>, p: Path) {
    var head := Head(r);
    if p in head then
      && (!Dirty(r, p) || exists s :: s in names && TakesHead(g, head, s, p))
      && forall d | d in names && Unstages(g, head, d, p) ::
           exists s :: s in names && TakesHead(g, head, s, p) && Less(d, s)
    else
      && (!IsTracked(r, p) || exists d :: d in names && Unstages(g, head, d, p))
      && (p !in r.work || p in names)
  }

  lemma EndsCleanStep(g: Restorer, r: Repo, names: set<Path>, s: Path, p: Path)
    requires IsLeast(s, names)
    ensures EndsClean(g, r, names, p) <==> EndsClean(g, RestoredOne(g, r, s), names - {s}, p)
  {
    hide RestoredOne, TakesHead, Unstages;
    EffectOfOne(g, r, s, p);
    if p in Head(r) {
      EndsCleanStepInHead(g, r, names, s, p);
    } else {
      EndsCleanStepNew(g, r, names, s, p);
    }
  }

  lemma EndsCleanStepInHead(g: Restorer, r: Repo, names: set<Path>, s: Path, p: Path)
    requires IsLeast(s, names) && p in Head(r)
    ensures EndsClean(g, r, names, p) <==> EndsClean(g, RestoredOne(g, r, s), names - {s}, p)
  {
    EffectOfOne(g, r, s, p);
    var head, r', rest := Head(r), RestoredOne(g, r, s), names - {s};
    assert Head(r') == head;
    assert TakesHead(g, head, s, p) ==> !Unstages(g, head, s, p);
    hide RestoredOne, TakesHead, Unstages, Less;
    forall d | d in names && Less(d, s) ensures false {
      LessIsStrict(s);
      if d != s {
        LessIsTransitive(d, s, d);
        LessIsStrict(d);
      }
    }
  }

  lemma EndsCleanStepNew(g: Restorer, r: Repo, names: set<Path>, s: Path, p: Path)
    requires IsLeast(s, names) && p !in Head(r)
    ensures EndsClean(g, r, names, p) <==> EndsClean(g, RestoredOne(g, r, s), names - {s}, p)
  {
    EffectOfOne(g, r, s, p);
    assert Head(RestoredOne(g, r, s)) == Head(r);
  }

  /** Restoring these names leaves a path clean exactly when that condition holds. */
  lemma {:induction false} RestoredExactly(g: Restorer, r: Repo, names: set<Path>, p: Path)
    ensures !Dirty(Restored(g, r, names), p) <==> EndsClean(g, r, names, p)
    decreases names
  {
    if names != {} {
      var s := Least(names);
      EndsCleanStep(g, r, names, s, p);
      RestoredExactly(g, RestoredOne(g, r, s), names - {s}, p);
    }
  }

  /** When all names are plain and all commands succeed: exactly when it was clean or is one
      of the names. */
  lemma PlainNamesEndClean(g: Restorer, r: Repo, names: set<Path>, p: Path)
    requires TakesStars(g) && forall s | s in names :: IsPlain(s) && g.works(s)
    ensures EndsClean(g, r, names, p) <==> !Dirty(r, p) || p in names
  {
    forall s | s in names ensures g.matches(s, p) <==> s == p {
      GlobOfPlain(s, p);
    }
  }

  /** A path is left as it is by names that do not reach it. */
  lemma {:induction false} NotReachedStays(g: Restorer, r: Repo, names: set<Path>, p: Path)
    requires p !in names
    requires forall s | s in names :: !TakesHead(g, Head(r), s, p) && !Unstages(g, Head(r), s, p)
    ensures var r' := Restored(g, r, names);
      && Staged(r', p) == Staged(r, p) && At(r'.work, p) == At(r.work, p)
      && (p in r'.odd <==> p in r.odd) && (p in r.odd ==> r'.odd[p] == r.odd[p])
    decreases names
  {
    hide TakesHead, Unstages;
    if names != {} {
      var s := Least(names);
      EffectOfOne(g, r, s, p);
      NotReachedStays(g, RestoredOne(g, r, s), names - {s}, p);
    }
  }

  lemma NothingToTake(g: Restorer, head: Tree, p: Path)
    requires p !in head
    ensures forall s :: !TakesHead(g, head, s, p)
  {
  }

  lemma StaysTracked(r: Repo, r': Repo, p: Path)
    requires Staged(r', p) == Staged(r, p) && (p in r'.odd <==> p in r.odd)
    ensures IsTracked(r', p) <==> IsTracked(r, p)
  {
  }

  /** A path that neither HEAD has nor is restored itself keeps its file, and is in the index
      no more exactly if some name unstages it. */
  lemma {:induction false} NewFileRestored(g: Restorer, r: Repo, names: set<Path>, p: Path)
    requires p !in Head(r) && p !in names
    ensures var r' := Restored(g, r, names);
      && At(r'.work, p) == At(r.work, p)
      && (IsTracked(r', p) <==>
            IsTracked(r, p) && forall s | s in names :: !Unstages(g, Head(r), s, p))
    decreases names
  {
    hide Unstages;
    if names != {} {
      var s := Least(names);
      EffectOfOne(g, r, s, p);
      NothingToTake(g, Head(r), p);
      NewFileRestored(g, RestoredOne(g, r, s), names - {s}, p);
    }
  }
}

/** Which paths are owned, and which of them are floored: tests on path strings, and what
    they mean for the components of a path. */
module OwnedPaths {

  /** A resolved absolute path, by its components. */
  type Path = seq<string>

  predicate IsName(c: string) {
    c != "" && '/' !in c
  }

  predicate IsPath(p: Path) {
    forall i | 0 <= i < |p| :: IsName(p[i])
  }

  function Joined(p: Path): string {
    if p == [] then "" else "/" + p[0] + Joined(p[1..])
  }

  /** The path as `realpath` writes it. */
  function Rendered(p: Path): string {
    if p == [] then "/" else Joined(p)
  }

  /** The test of the code: the same string, or one that goes on after a slash. */
  predicate Within(path: string, root: string) {
    path == root || root + "/" <= path
  }

  const PROTECTED_DB_FILENAMES: set<string> := {"rawos.db", "rawos.db-wal", "rawos.db-shm"}

  datatype Roots = Roots(workspaces: Path, source: Path, worktree: Path)

  /** A system root that is an owned root would own nothing but itself. */
  predicate ValidRoots(r: Roots) {
    && IsPath(r.workspaces) && IsPath(r.source) && IsPath(r.worktree)
    && r.workspaces != [] && r.source != [] && r.worktree != []
  }

  method IsOwnedPath(roots: Roots, path: string) returns (owned: bool)
    ensures owned <==>
      || Within(path, Rendered(roots.workspaces))
      || Within(path, Rendered(roots.source))
      || Within(path, Rendered(roots.worktree))
  {
    var all := [Rendered(roots.workspaces), Rendered(roots.source), Rendered(roots.worktree)];
    var i := 0;
    while i < |all|
      invariant 0 <= i <= |all|
      invariant forall k | 0 <= k < i :: !Within(path, all[k])
    {
      if path == all[i] || all[i] + "/" <= path {
        assert Within(path, all[i]);
        return true;
      }
      i := i + 1;
    }
    assert !Within(path, all[0]) && !Within(path, all[1]) && !Within(path, all[2]);
    return false;
  }

  /** Live databases, repositories, source code outside the data directory, and workspaces
      with an active intent. */
  predicate IsFloored(roots: Roots, p: Path, activeDirs: set<string>) {
    var path, source, data := Rendered(p), Rendered(roots.source), Rendered(roots.source + ["data"]);
    || (p != [] && p[|p| - 1] in PROTECTED_DB_FILENAMES)
    || ".git" in p
    || (Within(path, source) && !Within(path, data))
    || path in activeDirs
  }

  /** The components, each after a slash, and a slash at the end. */
  function Closed(p: Path): string {
    if p == [] then "/" else "/" + p[0] + Closed(p[1..])
  }

  lemma {:induction false} ClosedJoined(p: Path)
    ensures Closed(p) == Joined(p) + "/"
  {
    if p != [] {
      ClosedJoined(p[1..]);
    }
  }

  lemma ClosedStarts(p: Path)
    ensures Closed(p) != "" && Closed(p)[0] == '/'
  {
  }

  /** Names of different length differ where the slash after the shorter one is. */
  lemma NoSlashInside(c: string, x: string, d: string, y: string)
    requires IsName(d) && x != "" && x[0] == '/' && |c| < |d|
    ensures ("/" + c + x)[1 + |c|] != ("/" + d + y)[1 + |c|]
  {
    assert ("/" + d + y)[1 + |c|] == d[|c|];
  }

  /** Path strings that are closed with a slash begin each other as the paths do. */
  lemma {:induction false} ClosedPrefix(root: Path, p: Path)
    requires IsPath(root) && IsPath(p)
    ensures Closed(root) <= Closed(p) <==> root <= p
  {
    if root != [] && p != [] {
      var c, d, x, y := root[0], p[0], Closed(root[1..]), Closed(p[1..]);
      assert IsName(c) && IsName(d);
      ClosedStarts(root[1..]);
      ClosedStarts(p[1..]);
      ClosedPrefix(root[1..], p[1..]);
      if |c| < |d| {
        NoSlashInside(c, x, d, y);
      } else if |d| < |c| {
        NoSlashInside(d, y, c, x);
      } else {
        assert ("/" + c + x)[1..1 + |c|] == c && ("/" + d + y)[1..1 + |c|] == d;
        assert ("/" + c + x)[1 + |c|..] == x && ("/" + d + y)[1 + |c|..] == y;
        assert c == d ==> "/" + c + x == "/" + c + x && "/" + d + y == "/" + c + y;
      }
      assert root <= p <==> c == d && root[1..] <= p[1..];
    }
  }

  /** The string test is the component test: no path is taken to lie within a root because
      its name goes on where the root's name ends. */
  lemma WithinMeans(root: Path, p: Path)
    requires IsPath(root) && IsPath(p) && root != []
    ensures Within(Rendered(p), Rendered(root)) <==> root <= p
  {
    ClosedPrefix(root, p);
    ClosedJoined(root);
    ClosedJoined(p);
    var s, t := Joined(root), Joined(p);
    SlashedPrefix(s, t);
  }

  lemma SlashedPrefix(s: string, t: string)
    ensures Within(t, s) <==> s + "/" <= t + "/"
  {
    assert forall i | 0 <= i < |t| :: (t + "/")[i] == t[i];
    assert s + "/" <= t + "/" && |s| == |t| ==> s == t by {
      assert (s + "/")[..|s|] == s && (t + "/")[..|t|] == t;
    }
    assert s + "/" <= t + "/" && |s| < |t| ==> s + "/" <= t;
  }

  /** What is owned and what is floored, said of components. */
  lemma FloorMeans(roots: Roots, p: Path, activeDirs: set<string>)
    requires ValidRoots(roots) && IsPath(p) && p != []
    ensures IsFloored(roots, p, activeDirs) <==>
      || p[|p| - 1] in {"rawos.db", "rawos.db-wal", "rawos.db-shm"}
      || ".git" in p
      || (roots.source <= p && !(roots.source + ["data"] <= p))
      || Rendered(p) in activeDirs
  {
    WithinMeans(roots.source, p);
    assert IsName("data");
    WithinMeans(roots.source + ["data"], p);
  }
}

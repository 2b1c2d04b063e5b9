/** Cycles in a directed graph given by its edge relation. */
module Digraph {

  /** A closed walk. */
  ghost predicate Cycle<T>(edge: (T, T) -> bool, walk: seq<T>) {
    && |walk| >= 2
    && walk[0] == walk[|walk| - 1]
    && IsWalk(edge, walk)
  }

  ghost predicate IsWalk<T>(edge: (T, T) -> bool, walk: seq<T>) {
    forall i, j | 0 <= i < j < |walk| && j == i + 1 :: edge(walk[i], walk[j])
  }

  ghost predicate HasEdgeInto<T(!new)>(edge: (T, T) -> bool, t: T, knot: set<T>) {
    exists d :: d in knot && edge(t, d)
  }

  /** Every node of the knot has an edge to a node of the knot. */
  ghost predicate Knot<T(!new)>(edge: (T, T) -> bool, knot: set<T>) {
    forall t {:trigger HasEdgeInto(edge, t, knot)} | t in knot :: HasEdgeInto(edge, t, knot)
  }

  ghost function WalkIn<T(!new)>(edge: (T, T) -> bool, knot: set<T>, start: T, n: nat): (w: seq<T>)
    requires Knot(edge, knot) && start in knot
    ensures |w| == n + 1 && IsWalk(edge, w)
    ensures forall t | t in w :: t in knot
  {
    if n == 0 then [start]
    else
      var front := WalkIn(edge, knot, start, n - 1);
      assert front[n - 1] in front && HasEdgeInto(edge, front[n - 1], knot);
      var d :| d in knot && edge(front[n - 1], d);
      front + [d]
  }

  lemma {:induction false} Pigeonhole<T>(w: seq<T>, holes: set<T>) returns (i: nat, j: nat)
    requires |w| > |holes| && forall t | t in w :: t in holes
    ensures i < j < |w| && w[i] == w[j]
  {
    var last := w[|w| - 1];
    var front := w[..|w| - 1];
    if last in front {
      i :| 0 <= i < |front| && front[i] == last;
      j := |w| - 1;
    } else {
      assert |holes - {last}| == |holes| - 1;
      i, j := Pigeonhole(front, holes - {last});
    }
  }

  lemma {:induction false} SubWalk<T>(edge: (T, T) -> bool, w: seq<T>, lo: nat, hi: nat)
    requires IsWalk(edge, w) && lo <= hi <= |w|
    ensures IsWalk(edge, w[lo..hi])
  {
    var walk := w[lo..hi];
    forall k, l | 0 <= k < l < |walk| && l == k + 1 ensures edge(walk[k], walk[l]) {
      assert edge(w[lo + k], w[lo + l]);
    }
  }

  /** A walk with more steps than there are nodes to visit closes somewhere. */
  lemma {:induction false} LongWalkHasCycle<T>(edge: (T, T) -> bool, w: seq<T>, nodes: set<T>)
    returns (walk: seq<T>)
    requires IsWalk(edge, w) && |w| > |nodes| && forall t | t in w :: t in nodes
    ensures Cycle(edge, walk)
  {
    var i, j := Pigeonhole(w, nodes);
    walk := w[i..j + 1];
    SubWalk(edge, w, i, j + 1);
  }

  /** A nonempty knot contains a cycle. */
  lemma {:induction false} KnotHasCycle<T(!new)>(edge: (T, T) -> bool, knot: set<T>) returns (walk: seq<T>)
    requires Knot(edge, knot) && knot != {}
    ensures Cycle(edge, walk)
  {
    var start :| start in knot;
    var w := WalkIn(edge, knot, start, |knot|);
    walk := LongWalkHasCycle(edge, w, knot);
  }

  /** A rank that falls along a walk rules out that the walk closes. */
  lemma {:induction false} RankFalls<T>(rank: T -> int, walk: seq<T>, k: nat)
    requires k < |walk|
    requires forall i, j | 0 <= i < j < |walk| && j == i + 1 :: rank(walk[j]) < rank(walk[i])
    ensures rank(walk[k]) + k <= rank(walk[0])
  {
    if k > 0 {
      RankFalls(rank, walk, k - 1);
      assert rank(walk[k]) < rank(walk[k - 1]);
    }
  }
}

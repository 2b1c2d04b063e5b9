/** The trash life cycle of owned workspaces: a workspace is moved into a trash entry with
    a manifest, moved back from there, or deleted for good when the entry is old. */
module Trash {

  /** A directory, by its parent and its own name. */
  datatype Place = Place(parent: string, name: string)

  /** The contents of a directory: an identity for its files, and its subdirectories. */
  datatype Tree = Tree(id: string, children: map<string, Tree>)

  /** `Unreadable` is a manifest that exists and cannot be read or parsed. `Malformed` is one
      that is not UTF-8 or holds other values than it should: it raises where no handler
      is ready for it. */
  datatype Manifest =
    | Missing
    | Unreadable
    | Malformed
    | Manifest(originalPath: Place, trashedAt: int, contentsDir: string)

  datatype Entry = Entry(dirs: map<string, Tree>, manifest: Manifest, mtime: int)

  datatype State = State(live: map<Place, Tree>, trash: map<string, Entry>)

  const MANIFEST := "manifest.json"

  /** The name of an entry: the time to the second, and the workspace's name. */
  function EntryName(stamp: string, place: Place): string {
    stamp + "_" + place.name
  }

  /** `Failed` is an exception. */
  datatype Result = Done | Failed

  // ---------------------------------------------------------------------------
  // The operations
  // ---------------------------------------------------------------------------

  /** The entry's directories after a workspace was moved into it: under its own name, or,
      when there is a directory of that name already, within that one. */
  function MovedInto(dirs: map<string, Tree>, name: string, tree: Tree): map<string, Tree> {
    if name !in dirs then dirs[name := tree]
    else dirs[name := dirs[name].(children := dirs[name].children[name := tree])]
  }

  function EmptyEntry(now: int): Entry {
    Entry(map[], Missing, now)
  }

  /** Whether the move fails: the workspace is not there, or is taken within the entry. */
  predicate CanMove(s: State, place: Place, e: Entry) {
    && place in s.live
    && (place.name in e.dirs ==> place.name !in e.dirs[place.name].children)
  }

  function Opened(s: State, name: string, now: int): Entry {
    if name in s.trash then s.trash[name] else EmptyEntry(now)
  }

  /** The state after a workspace was sent to the trash. */
  function Gc(s: State, place: Place, stamp: string, now: int): State {
    var name := EntryName(stamp, place);
    var e := Opened(s, name, now);
    if !CanMove(s, place, e) then s.(trash := s.trash[name := e])
    else
      var moved := e.(dirs := MovedInto(e.dirs, place.name, s.live[place]), mtime := now);
      var manifest := if place.name == MANIFEST then Unreadable else Manifest(place, now, place.name);
      State(s.live - {place}, s.trash[name := moved.(manifest := manifest)])
  }

  predicate CanRestore(s: State, name: string) {
    && name in s.trash
    && s.trash[name].manifest.Manifest?
    && s.trash[name].manifest.originalPath !in s.live
    && s.trash[name].manifest.contentsDir in s.trash[name].dirs
  }

  function Restored(s: State, name: string): State {
    if !CanRestore(s, name) then s
    else
      var e := s.trash[name];
      State(s.live[e.manifest.originalPath := e.dirs[e.manifest.contentsDir]], s.trash - {name})
  }

  /** The time that decides about an entry: a manifest that cannot be read counts as old. */
  function TrashedAt(e: Entry): int
    requires !e.manifest.Malformed?
  {
    match e.manifest
    case Manifest(_, trashedAt, _) => trashedAt
    case Missing => e.mtime
    case Unreadable => 0
  }

  predicate Expired(e: Entry, cutoff: real) {
    !e.manifest.Malformed? && TrashedAt(e) as real < cutoff
  }

  predicate Raises(trash: map<string, Entry>, name: string) {
    name in trash && trash[name].manifest.Malformed?
  }

  /** How many entries are read before one whose manifest raises. */
  function Reach(trash: map<string, Entry>, order: seq<string>): (k: nat)
    ensures k <= |order| && (k < |order| ==> Raises(trash, order[k]))
    ensures forall i | 0 <= i < k :: !Raises(trash, order[i])
  {
    if order == [] || Raises(trash, order[0]) then 0 else 1 + Reach(trash, order[1..])
  }

  /** The entries that are read, when the directory is listed in this order. */
  function ReadOf(trash: map<string, Entry>, order: seq<string>): seq<string> {
    order[..Reach(trash, order)]
  }

  /** What is left when, of these names, those of entries older than the cutoff go. */
  function LeftOf(trash: map<string, Entry>, names: seq<string>, cutoff: real): map<string, Entry> {
    map name | name in trash && !(name in names && Expired(trash[name], cutoff)) :: trash[name]
  }

  /** The state after the entries were read in this order. */
  function Reaped(s: State, cutoff: real, order: seq<string>): State {
    s.(trash := LeftOf(s.trash, ReadOf(s.trash, order), cutoff))
  }

  /** The entries of the trash, each once, in the order of the directory. */
  ghost predicate ListsTrash(order: seq<string>, trash: map<string, Entry>) {
    && (forall name :: name in order <==> name in trash)
    && (forall i, j | 0 <= i < j < |order| :: order[i] != order[j])
  }

  function ExpiredOf(trash: map<string, Entry>, names: seq<string>, cutoff: real): seq<string>
    requires forall name | name in names :: name in trash
  {
    var n := |names|;
    if n == 0 then []
    else
      var last := names[n - 1];
      ExpiredOf(trash, names[..n - 1], cutoff) + (if Expired(trash[last], cutoff) then [last] else [])
  }

  class OwnedResourceKernel {
    var live: map<Place, Tree>
    var trash: map<string, Entry>

    function View(): State
      reads this
    {
      State(live, trash)
    }

    constructor (s: State)
      ensures View() == s
    {
      live, trash := s.live, s.trash;
    }

    method GcWorkspaceToTrash(place: Place, stamp: string, now: int) returns (result: Result)
      modifies this
      ensures View() == Gc(old(View()), place, stamp, now)
      ensures result == Done <==>
        CanMove(old(View()), place, Opened(old(View()), EntryName(stamp, place), now)) && place.name != MANIFEST
      ensures place !in old(live) ==> result == Failed && live == old(live)
      ensures place in old(live) && stamp + "_" + place.name !in old(trash) ==>
        && live == old(live) - {place}
        && trash == old(trash)[stamp + "_" + place.name :=
             Entry(map[place.name := old(live)[place]],
                   if place.name == "manifest.json" then Unreadable else Manifest(place, now, place.name), now)]
        && (result == Done <==> place.name != "manifest.json")
      ensures forall name | name != stamp + "_" + place.name ::
        (name in trash <==> name in old(trash)) && (name in trash ==> trash[name] == old(trash)[name])
    {
      var name := stamp + "_" + place.name;
      if name !in trash {
        trash := trash[name := Entry(map[], Missing, now)];
      }
      var dirs := trash[name].dirs;
      if place !in live || (place.name in dirs && place.name in dirs[place.name].children) {
        return Failed;
      }
      if place.name in dirs {
        var outer := dirs[place.name];
        dirs := dirs[place.name := outer.(children := outer.children[place.name := live[place]])];
      } else {
        dirs := dirs[place.name := live[place]];
      }
      live := live - {place};
      trash := trash[name := trash[name].(dirs := dirs, mtime := now)];
      if place.name == MANIFEST {
        trash := trash[name := trash[name].(manifest := Unreadable)];
        return Failed;
      }
      trash := trash[name := trash[name].(manifest := Manifest(place, now, place.name))];
      return Done;
    }

    method RestoreFromTrash(name: string) returns (result: Result)
      modifies this
      ensures View() == Restored(old(View()), name)
      ensures result == Done <==> old(CanRestore(View(), name))
      ensures result == Failed ==> live == old(live) && trash == old(trash)
      ensures result == Done ==>
        var e := old(trash)[name];
        && e.manifest.Manifest? && e.manifest.originalPath !in old(live) && e.manifest.contentsDir in e.dirs
        && live == old(live)[e.manifest.originalPath := e.dirs[e.manifest.contentsDir]]
        && trash == old(trash) - {name}
    {
      if name !in trash || !trash[name].manifest.Manifest? {
        return Failed;
      }
      var e := trash[name];
      if e.manifest.originalPath in live {
        return Failed;
      }
      if e.manifest.contentsDir !in e.dirs {
        return Failed;
      }
      live := live[e.manifest.originalPath := e.dirs[e.manifest.contentsDir]];
      trash := trash - {name};
      return Done;
    }

    /** Deletes the entries that are older than the cutoff, up to the first whose manifest
        raises. */
    method ReapTrash(cutoff: real, order: seq<string>) returns (result: Result, reaped: seq<string>)
      requires ListsTrash(order, trash)
      modifies this`trash
      ensures View() == Reaped(old(View()), cutoff, order)
      ensures result == Failed <==> exists name :: Raises(old(trash), name)
      ensures reaped == ExpiredOf(old(trash), ReadOf(old(trash), order), cutoff)
      ensures forall name :: name in reaped <==> name in old(trash) && name !in trash
    {
      hide LeftOf, Expired;
      ghost var all := trash;
      LeftOfNone(all, cutoff);
      assert order[..0] == [];
      reaped := [];
      var i := 0;
      while i < |order|
        invariant 0 <= i <= Reach(all, order)
        invariant trash == LeftOf(all, order[..i], cutoff)
        invariant reaped == ExpiredOf(all, order[..i], cutoff)
        invariant forall name :: name in reaped <==> name in all && name !in trash
      {
        var name := order[i];
        LeftOneMore(all, order[..i], name, cutoff);
        if trash[name].manifest.Malformed? {
          assert Raises(all, name);
          return Failed, reaped;
        }
        assert order[..i + 1] == order[..i] + [name];
        if Expired(trash[name], cutoff) {
          trash := trash - {name};
          reaped := reaped + [name];
        }
        i := i + 1;
      }
      return Done, reaped;
    }
  }

  lemma LeftOfNone(trash: map<string, Entry>, cutoff: real)
    ensures LeftOf(trash, [], cutoff) == trash
  {
  }

  lemma LeftOneMore(trash: map<string, Entry>, names: seq<string>, name: string, cutoff: real)
    requires name in trash && name !in names
    ensures var left := LeftOf(trash, names, cutoff);
      && name in left && left[name] == trash[name]
      && LeftOf(trash, names + [name], cutoff) == if Expired(trash[name], cutoff) then left - {name} else left
  {
    assert forall other :: other in names + [name] <==> other in names || other == name;
  }

  /** When no manifest raises, exactly the entries older than the cutoff go. */
  lemma ReapIsComplete(s: State, cutoff: real, order: seq<string>)
    requires ListsTrash(order, s.trash) && forall name :: !Raises(s.trash, name)
    ensures forall name :: name in Reaped(s, cutoff, order).trash <==>
      name in s.trash && !Expired(s.trash[name], cutoff)
  {
    assert Reach(s.trash, order) == |order|;
    assert order[..|order|] == order;
  }

  /** What is older than the cutoff: by the time its manifest gives, by the directory's time if
      there is no manifest, and always if the manifest cannot be read. */
  lemma ReapedByItsTime(s: State, cutoff: real, order: seq<string>, name: string)
    requires ListsTrash(order, s.trash) && forall other :: !Raises(s.trash, other)
    requires name in s.trash && cutoff > 0.0
    ensures name !in Reaped(s, cutoff, order).trash <==>
      var e := s.trash[name];
      || (e.manifest.Manifest? && (e.manifest.trashedAt as real) < cutoff)
      || (e.manifest.Missing? && (e.mtime as real) < cutoff)
      || e.manifest.Unreadable?
  {
    ReapIsComplete(s, cutoff, order);
  }

  /** In one second two workspaces share an entry only if they share a name. */
  lemma EntriesAreNamed(stamp: string, a: Place, b: Place)
    ensures EntryName(stamp, a) == EntryName(stamp, b) <==> a.name == b.name
  {
    assert EntryName(stamp, a)[|stamp| + 1..] == a.name && EntryName(stamp, b)[|stamp| + 1..] == b.name;
  }

  /** Otherwise the entry whose manifest raises, and all entries after it, stay whatever
      their age. */
  lemma MalformedStopsReaping(s: State, cutoff: real, order: seq<string>, i: nat, j: nat)
    requires ListsTrash(order, s.trash) && i <= j < |order| && Raises(s.trash, order[i])
    ensures order[j] in Reaped(s, cutoff, order).trash
  {
    assert Reach(s.trash, order) <= i;
  }

  // ---------------------------------------------------------------------------
  // Conservation
  // ---------------------------------------------------------------------------

  datatype Step =
    | Create(place: Place, tree: Tree)
    | GcStep(place: Place, stamp: string, now: int)
    | RestoreStep(name: string)
    | ReapStep(cutoff: real, order: seq<string>)

  function Do(s: State, step: Step): State {
    match step
    case Create(place, tree) => if place in s.live then s else s.(live := s.live[place := tree])
    case GcStep(place, stamp, now) => Gc(s, place, stamp, now)
    case RestoreStep(name) => Restored(s, name)
    case ReapStep(cutoff, order) => Reaped(s, cutoff, order)
  }

  /** A workspace that is sent to the trash gets an entry of its own. */
  predicate Fresh(s: State, step: Step) {
    step.GcStep? ==>
      step.place in s.live && step.place.name != MANIFEST && EntryName(step.stamp, step.place) !in s.trash
  }

  /** The entry holds the tree and its manifest says where it belongs. */
  predicate Holds(e: Entry, place: Place, tree: Tree) {
    && e.manifest.Manifest? && e.manifest.originalPath == place && e.manifest.contentsDir == place.name
    && e.dirs == map[place.name := tree]
  }

  /** Each entry holds one workspace. */
  ghost predicate Tidy(s: State) {
    forall name | name in s.trash ::
      exists place, tree :: Holds(s.trash[name], place, tree)
  }

  function EntriesOf(trash: map<string, Entry>, place: Place, tree: Tree): set<string> {
    set name | name in trash && Holds(trash[name], place, tree)
  }

  predicate IsLive(s: State, place: Place, tree: Tree) {
    place in s.live && s.live[place] == tree
  }

  /** In how many places the contents of a workspace are. */
  function Copies(s: State, place: Place, tree: Tree): nat {
    (if IsLive(s, place, tree) then 1 else 0) + |EntriesOf(s.trash, place, tree)|
  }

  function ReapedEntriesOf(s: State, place: Place, tree: Tree, cutoff: real, order: seq<string>): set<string> {
    set name | && name in EntriesOf(s.trash, place, tree)
               && name in ReadOf(s.trash, order) && Expired(s.trash[name], cutoff)
  }

  /** What a step adds to and takes from the places where a workspace is. */
  function Gain(s: State, step: Step, place: Place, tree: Tree): int {
    match step
    case Create(p, t) => if p !in s.live && p == place && t == tree then 1 else 0
    case ReapStep(cutoff, order) => -|ReapedEntriesOf(s, place, tree, cutoff, order)|
    case _ => 0
  }

  lemma GcKeepsTidy(s: State, step: Step)
    requires Tidy(s) && Fresh(s, step) && step.GcStep?
    ensures Tidy(Do(s, step))
  {
    var s' := Do(s, step);
    var own := EntryName(step.stamp, step.place);
    assert Holds(s'.trash[own], step.place, s.live[step.place]);
    forall name | name in s'.trash ensures exists place, tree :: Holds(s'.trash[name], place, tree) {
      if name != own {
        assert s'.trash[name] == s.trash[name];
      }
    }
  }

  lemma StepKeepsTidy(s: State, step: Step)
    requires Tidy(s) && Fresh(s, step)
    ensures Tidy(Do(s, step))
  {
    if step.GcStep? {
      GcKeepsTidy(s, step);
    }
  }

  lemma HoldsOne(e: Entry, p: Place, t: Tree, q: Place, u: Tree)
    requires Holds(e, p, t)
    ensures Holds(e, q, u) <==> p == q && t == u
  {
    assert map[p.name := t][p.name] == t;
    assert map[q.name := u][q.name] == u;
  }

  /** The entries that hold a workspace, when one entry is added that holds one. */
  lemma OneEntryMore(
      less: map<string, Entry>, more: map<string, Entry>, own: string, p: Place, t: Tree, place: Place, tree: Tree)
    requires own !in less && own in more && Holds(more[own], p, t) && less == more - {own}
    ensures |EntriesOf(more, place, tree)| == |EntriesOf(less, place, tree)| + if p == place && t == tree then 1 else 0
  {
    HoldsOne(more[own], p, t, place, tree);
    if p == place && t == tree {
      assert EntriesOf(more, place, tree) == EntriesOf(less, place, tree) + {own};
    } else {
      assert EntriesOf(more, place, tree) == EntriesOf(less, place, tree);
    }
  }

  lemma GcConserves(s: State, step: Step, place: Place, tree: Tree)
    requires Fresh(s, step) && step.GcStep?
    ensures Copies(Do(s, step), place, tree) == Copies(s, place, tree)
  {
    var own := EntryName(step.stamp, step.place);
    assert Do(s, step).trash - {own} == s.trash;
    OneEntryMore(s.trash, Do(s, step).trash, own, step.place, s.live[step.place], place, tree);
  }

  lemma RestoreConserves(s: State, name: string, place: Place, tree: Tree)
    requires Tidy(s)
    ensures Copies(Restored(s, name), place, tree) == Copies(s, place, tree)
  {
    if CanRestore(s, name) {
      var p, t :| Holds(s.trash[name], p, t);
      assert map[p.name := t][p.name] == t;
      assert Restored(s, name).live == s.live[p := t];
      OneEntryMore(Restored(s, name).trash, s.trash, name, p, t, place, tree);
    }
  }

  lemma ReapConserves(s: State, cutoff: real, order: seq<string>, place: Place, tree: Tree)
    ensures Copies(Reaped(s, cutoff, order), place, tree) ==
      Copies(s, place, tree) - |ReapedEntriesOf(s, place, tree, cutoff, order)|
  {
    hide Holds, ReadOf, Expired;
    var all, gone := EntriesOf(s.trash, place, tree), ReapedEntriesOf(s, place, tree, cutoff, order);
    var kept := all - gone;
    assert |kept| == |all| - |gone|;
    forall name ensures name in EntriesOf(Reaped(s, cutoff, order).trash, place, tree) <==> name in kept {
    }
    assert EntriesOf(Reaped(s, cutoff, order).trash, place, tree) == kept;
  }

  /** No step loses or doubles a workspace but the creation of it, and the deletion of
      entries that hold it and are older than the cutoff. */
  lemma StepConserves(s: State, step: Step, place: Place, tree: Tree)
    requires Tidy(s) && Fresh(s, step)
    ensures Copies(Do(s, step), place, tree) == Copies(s, place, tree) + Gain(s, step, place, tree)
  {
    match step
    case Create(p, t) => assert EntriesOf(Do(s, step).trash, place, tree) == EntriesOf(s.trash, place, tree);
    case GcStep(_, _, _) => GcConserves(s, step, place, tree);
    case RestoreStep(name) => RestoreConserves(s, name, place, tree);
    case ReapStep(cutoff, order) => ReapConserves(s, cutoff, order, place, tree);
  }

  function DoAll(s: State, steps: seq<Step>): State {
    var n := |steps|;
    if n == 0 then s else Do(DoAll(s, steps[..n - 1]), steps[n - 1])
  }

  predicate AllFresh(s: State, steps: seq<Step>) {
    var n := |steps|;
    n > 0 ==> AllFresh(s, steps[..n - 1]) && Fresh(DoAll(s, steps[..n - 1]), steps[n - 1])
  }

  function Gains(s: State, steps: seq<Step>, place: Place, tree: Tree): int {
    var n := |steps|;
    if n == 0 then 0
    else Gains(s, steps[..n - 1], place, tree) + Gain(DoAll(s, steps[..n - 1]), steps[n - 1], place, tree)
  }

  /** Over any run with fresh entry names, the places where a workspace is are those at the
      start and those created, less the entries reaped past their cutoff. */
  lemma {:induction false} RunConserves(s: State, steps: seq<Step>, place: Place, tree: Tree)
    requires Tidy(s) && AllFresh(s, steps)
    ensures Tidy(DoAll(s, steps))
    ensures Copies(DoAll(s, steps), place, tree) == Copies(s, place, tree) + Gains(s, steps, place, tree)
  {
    var n := |steps|;
    if n > 0 {
      RunConserves(s, steps[..n - 1], place, tree);
      StepKeepsTidy(DoAll(s, steps[..n - 1]), steps[n - 1]);
      StepConserves(DoAll(s, steps[..n - 1]), steps[n - 1], place, tree);
    }
  }

  /** Sending a workspace to the trash and restoring it is the identity. */
  lemma GcThenRestore(s: State, place: Place, stamp: string, now: int)
    requires Fresh(s, GcStep(place, stamp, now))
    ensures Restored(Gc(s, place, stamp, now), EntryName(stamp, place)) == s
  {
    var name := EntryName(stamp, place);
    var t := Gc(s, place, stamp, now);
    assert t.live[place := s.live[place]] == s.live;
    assert t.trash - {name} == s.trash;
  }

  /** What has been trashed within the retention time survives every reaping in it. */
  lemma ReapSparesRecent(s: State, place: Place, stamp: string, now: int, cutoff: real, order: seq<string>)
    requires Fresh(s, GcStep(place, stamp, now)) && cutoff <= now as real
    ensures var t := Reaped(Gc(s, place, stamp, now), cutoff, order);
      EntryName(stamp, place) in t.trash && Holds(t.trash[EntryName(stamp, place)], place, s.live[place])
  {
  }

  /** Freshness is needed: of two workspaces of one name sent to the trash in the same
      second, the first ends within the second, and no manifest names its place. */
  lemma SameSecondLosesPlace(name: string, stamp: string, now: int, t: Tree, u: Tree)
    requires name != MANIFEST && name !in t.children
    ensures var a, b := Place("a", name), Place("b", name);
      var s := Gc(Gc(State(map[a := t, b := u], map[]), a, stamp, now), b, stamp, now);
      && Copies(State(map[a := t, b := u], map[]), a, t) == 1
      && Copies(s, a, t) == 0 && Copies(s, b, u) == 0
      && Restored(s, EntryName(stamp, b)).live == map[b := t.(children := t.children[name := u])]
  {
    var a, b := Place("a", name), Place("b", name);
    var s0 := State(map[a := t, b := u], map[]);
    var s1 := Gc(s0, a, stamp, now);
    var s2 := Gc(s1, b, stamp, now);
    var e := EntryName(stamp, b);
    var nested := t.(children := t.children[name := u]);
    assert EntriesOf(s0.trash, a, t) == {};
    assert s1.live == map[b := u] && s1.trash[e].dirs == map[name := t];
    assert s2.live == map[] && s2.trash[e].dirs == map[name := nested];
    assert s2.trash[e].manifest.originalPath == b;
    assert nested.children[name] == u;
    assert map[name := nested][name] == nested;
    assert EntriesOf(s2.trash, a, t) == {};
  }
}

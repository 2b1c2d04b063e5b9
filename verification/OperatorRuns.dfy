/** What the operator keeps over whole runs of requests, approved or not. */
module OperatorRuns {
  import opened Operator
  import opened Options
  import opened Paths
  import opened Splitting
  import opened Text
  import opened TrackRecord
  import opened UnitFloor

  /** The system after these requests, from a machine with nothing recorded. */
  function After(cfg: Config, m: Machine, requests: seq<Request>): (s: System)
    ensures Recorded(s)
  {
    var n := |requests|;
    if n == 0 then System(m, [], [])
    else Handle(cfg, After(cfg, m, requests[..n - 1]), requests[n - 1])
  }

  /** The requests that were run and verified, in order. */
  function Kept(cfg: Config, m: Machine, requests: seq<Request>): seq<Request> {
    var n := |requests|;
    if n == 0 then []
    else
      var r := requests[n - 1];
      var before := requests[..n - 1];
      Kept(cfg, m, before) +
      (if Decide(cfg, After(cfg, m, before), r) == Run && Verified(r.op, r.world) then [r] else [])
  }

  /** The machine after just applying these operations. */
  function Replay(m: Machine, kept: seq<Request>): Machine {
    var n := |kept|;
    if n == 0 then m else Applied(Replay(m, kept[..n - 1]), kept[n - 1].op, kept[n - 1].world)
  }

  lemma ReplayOneMore(m: Machine, kept: seq<Request>, r: Request)
    ensures Replay(m, kept + [r]) == Applied(Replay(m, kept), r.op, r.world)
  {
    assert (kept + [r])[..|kept|] == kept;
  }

  predicate RestoredEachTime(cfg: Config, m: Machine, requests: seq<Request>) {
    var n := |requests|;
    n > 0 ==>
      && RestoredEachTime(cfg, m, requests[..n - 1])
      && (var s, r := After(cfg, m, requests[..n - 1]), requests[n - 1];
          Decide(cfg, s, r) == Run && !Verified(r.op, r.world) ==> RestoreWorks(s.machine, r.op, r.world))
  }

  /** However requests are mixed and whatever fails, the managed state is what the verified
      operations alone have made of it, provided restoring works each time. */
  lemma {:induction false} OnlyVerifiedRemain(cfg: Config, m: Machine, requests: seq<Request>)
    requires RestoredEachTime(cfg, m, requests)
    ensures After(cfg, m, requests).machine == Replay(m, Kept(cfg, m, requests))
  {
    var n := |requests|;
    if n > 0 {
      OnlyVerifiedRemain(cfg, m, requests[..n - 1]);
      hide Applied, Undone, Verified, RestoreWorks, Decide;
      var s, r, kept := After(cfg, m, requests[..n - 1]), requests[n - 1], Kept(cfg, m, requests[..n - 1]);
      UndoneExactly(s.machine, r.op, r.world);
      if Decide(cfg, s, r) == Run && Verified(r.op, r.world) {
        ReplayOneMore(m, kept, r);
      } else {
        assert Kept(cfg, m, requests) == kept;
      }
    }
  }

  /** And only then: if it was so up to the last request, and restoring does not work for that
      one, the state is another one. */
  lemma OnlyVerifiedRemainExactly(cfg: Config, m: Machine, requests: seq<Request>)
    requires requests != [] && RestoredEachTime(cfg, m, requests[..|requests| - 1])
    ensures After(cfg, m, requests).machine == Replay(m, Kept(cfg, m, requests)) <==>
      RestoredEachTime(cfg, m, requests)
  {
    if RestoredEachTime(cfg, m, requests) {
      OnlyVerifiedRemain(cfg, m, requests);
    } else {
      hide Undone, RestoreWorks, Verified, Applied, Decide;
      var earlier, r := requests[..|requests| - 1], requests[|requests| - 1];
      OnlyVerifiedRemain(cfg, m, earlier);
      UndoneExactly(After(cfg, m, earlier).machine, r.op, r.world);
      assert Kept(cfg, m, requests) == Kept(cfg, m, earlier);
    }
  }

  // ---------------------------------------------------------------------------
  // The floor of units
  // ---------------------------------------------------------------------------

  /** A unit's file and its enable state are the same. */
  predicate SameUnit(m: Machine, m': Machine, u: string) {
    && FileAt(m, UnitFile(u)) == FileAt(m', UnitFile(u))
    && (UnitOf(u) in m.enabled <==> UnitOf(u) in m'.enabled)
  }

  /** A unit operation is given the name of a unit, not a path or anything else. */
  predicate NamesUnitPlainly(op: Operation) {
    op.UnitAction? ==> Lacks(op.name, '/') && IsUnitName(op.name)
  }

  /** The unit is not enabled or disabled along with the one that is named. */
  predicate IsNotAlong(op: Operation, w: World, u: string) {
    op.UnitAction? && op.op in {"enable", "disable"} ==> UnitOf(u) !in w.also
  }

  /** The owner has put a path to this file on the allowlist of files. */
  predicate ManagesFile(cfg: Config, cwd: Place, place: Place) {
    exists path :: path in cfg.managedFiles && Locate(cwd, path) == place
  }

  lemma FloorHoldsOnce(cfg: Config, m: Machine, op: Operation, w: World, u: string)
    requires "" !in cfg.floor && IsPlainName(u) && IsUnitName(u) && IsFloorProtected(u, cfg.floor)
    requires Permitted(cfg, op) && NamesUnitPlainly(op) && IsNotAlong(op, w, u)
    requires !ManagesFile(cfg, m.cwd, UnitFile(u))
    ensures SameUnit(m, Performed(m, op, w), u)
  {
    hide IsFloorProtected, Locate, UnitOf, IsRefused;
    match op
    case FileEdit(path, _) =>
      assert Locate(m.cwd, path) != UnitFile(u);
    case ServiceAction(_, _) =>
    case UnitAction(name, action, _, _) =>
      if action != "set_default" {
        if UnitOf(name) == UnitOf(u) {
          ProtectionFollowsTheUnit(name, u, cfg.floor);
        }
        if UnitFile(name) == UnitFile(u) {
          NamesWithoutSlash(UNIT_DIR, name, u);
        }
      }
  }

  lemma {:induction false} SameDirectory(cfg: Config, m: Machine, requests: seq<Request>)
    ensures After(cfg, m, requests).machine.cwd == m.cwd
  {
    hide IsFloorProtected, IsRefused, Locate, UnitFile, UnitOf;
    if |requests| > 0 {
      SameDirectory(cfg, m, requests[..|requests| - 1]);
    }
  }

  predicate NameUnitsPlainly(requests: seq<Request>) {
    forall r | r in requests :: NamesUnitPlainly(r.op)
  }

  predicate NeverAlong(requests: seq<Request>, u: string) {
    forall r | r in requests :: IsNotAlong(r.op, r.world, u)
  }

  /** No run of requests, approved ones included, that names units plainly changes the enable
      state of a unit on the floor, if no unit file has it enabled or disabled along with
      another unit; nor its file, if no path on the allowlist of files leads to it. */
  lemma {:induction false} FloorHolds(cfg: Config, m: Machine, requests: seq<Request>, u: string)
    requires "" !in cfg.floor && IsPlainName(u) && IsUnitName(u) && IsFloorProtected(u, cfg.floor)
    requires NameUnitsPlainly(requests) && NeverAlong(requests, u) && !ManagesFile(cfg, m.cwd, UnitFile(u))
    ensures SameUnit(m, After(cfg, m, requests).machine, u)
  {
    hide IsFloorProtected, ManagesFile, UnitFile, UnitOf, IsPlainName, IsUnitName, Performed;
    hide NamesUnitPlainly, IsNotAlong;
    var n := |requests|;
    if n > 0 {
      var earlier := requests[..n - 1];
      assert forall r | r in earlier :: r in requests;
      FloorHolds(cfg, m, earlier, u);
      SameDirectory(cfg, m, earlier);
      var s, r := After(cfg, m, earlier), requests[n - 1];
      if Decide(cfg, s, r) == Run {
        FloorHoldsOnce(cfg, s.machine, r.op, r.world, u);
      }
    }
  }

  /** An approved author of a unit, under this name. */
  function AuthorRequest(name: string, content: string, w: World, now: int): Request {
    Request(UnitAction(name, "author", Some(content), None), true, w, now)
  }

  /** Given as a path, any unit can be authored, also one on the floor. */
  lemma PathsReachTheFloor(cfg: Config, m: Machine, u: string, content: string, w: World, now: int)
    requires IsPlainName(u) && NoneBeginsWithDot(cfg.floor)
    requires content != "" && w.passes
    ensures FileAt(After(cfg, m, [AuthorRequest("./" + u, content, w, now)]).machine, UnitFile(u)) == Some(content)
  {
    hide Locate, IsFloorProtected;
    var r := AuthorRequest("./" + u, content, w, now);
    PathsEscapeTheFloor(u, cfg.floor);
    assert [r][..0] == [];
  }

  /** An approved disabling of a unit, under this name. */
  function DisableRequest(name: string, w: World, now: int): Request {
    Request(UnitAction(name, "disable", None, None), true, w, now)
  }

  /** Disabling a unit that is not on the floor, approved and validated, disables any unit
      along with it that its file names for that. */
  lemma AlongReachesTheFloor(cfg: Config, m: Machine, name: string, u: string, w: World, now: int)
    requires !IsFloorProtected(name, cfg.floor) && w.passes && UnitOf(u) in w.also
    ensures UnitOf(u) !in After(cfg, m, [DisableRequest(name, w, now)]).machine.enabled
  {
    hide UnitOf, IsFloorProtected;
    var r := DisableRequest(name, w, now);
    assert [r][..0] == [];
  }

  const SSH_UNIT := "sshd.service"

  lemma SshUnitIsPlain()
    ensures IsPlainName(SSH_UNIT) && SSH_UNIT in FLOOR_UNIT_SEED && "./" + SSH_UNIT == "./sshd.service"
  {
    assert Lacks(SSH_UNIT, '/');
  }

  lemma SshUnitIsPlaced()
    ensures UnitFile(SSH_UNIT) == ["etc", "systemd", "system", "sshd.service"]
  {
    SshUnitIsPlain();
    hide Locate, IsPlainName;
    PlainNameIsInside(UNIT_DIR, SSH_UNIT);
    assert UNIT_DIR + [SSH_UNIT] == ["etc", "systemd", "system", "sshd.service"];
  }

  /** The unit of the SSH daemon is on the floor, and is overwritten as "./sshd.service". */
  lemma SshUnitIsReached(cfg: Config, m: Machine, content: string, w: World, now: int)
    requires cfg.floor == FLOOR_UNIT_SEED && content != "" && w.passes
    ensures IsFloorProtected(SSH_UNIT, cfg.floor)
    ensures FileAt(After(cfg, m, [AuthorRequest("./sshd.service", content, w, now)]).machine,
                   ["etc", "systemd", "system", "sshd.service"]) == Some(content)
  {
    hide FLOOR_UNIT_SEED, SSH_UNIT, Locate;
    NamesOfSeed();
    SshUnitIsPlain();
    SshUnitIsPlaced();
    PathsReachTheFloor(cfg, m, SSH_UNIT, content, w, now);
  }

  /** The floor guards unit operations only: an edit of the unit's file as a managed file,
      approved and validated, goes through. */
  lemma FloorGuardsUnitOperationsOnly(cfg: Config, m: Machine, u: string, path: string, content: string,
                                      w: World, now: int)
    requires IsFloorProtected(u, cfg.floor) && w.passes && Locate(m.cwd, path) == UnitFile(u)
    requires path in cfg.managedFiles && cfg.managedFiles[path] != "" && !IsRefused(path, cfg.sourceRoot)
    ensures var r := Request(FileEdit(path, content), true, w, now);
      FileAt(After(cfg, m, [r]).machine, UnitFile(u)) == Some(content)
  {
    var r := Request(FileEdit(path, content), true, w, now);
    assert [r][..0] == [];
  }

  lemma {:induction false} DefaultTargetStaysAllowed(cfg: Config, m: Machine, requests: seq<Request>)
    requires m.defaultTarget in {"multi-user.target", "graphical.target"}
    ensures After(cfg, m, requests).machine.defaultTarget in {"multi-user.target", "graphical.target"}
  {
    hide IsFloorProtected, IsRefused, Locate, UnitFile, UnitOf;
    var n := |requests|;
    if n > 0 {
      DefaultTargetStaysAllowed(cfg, m, requests[..n - 1]);
    }
  }

  // ---------------------------------------------------------------------------
  // The paths that the file operator refuses
  // ---------------------------------------------------------------------------

  /** The places that the file operator means to protect. The source tree has an absolute
      path and is not the root directory. */
  predicate IsProtectedPlace(place: Place, sourceRoot: string) {
    || place == ["etc", "systemd", "system", "anima.service"]
    || place == ["etc", "ssh", "sshd_config.d", "50-anima-frontdoor.conf"]
    || Normalized(sourceRoot).parts <= place
  }

  predicate IsProperRoot(sourceRoot: string) {
    Normalized(sourceRoot).slashes == 1 && Normalized(sourceRoot).parts != []
  }

  /** The path is absolute, and does not begin with two slashes and no more. */
  predicate BeginsPlainly(path: string) {
    "/" <= path && !("//" <= path && !("///" <= path))
  }

  /** A path is refused exactly when it leads to a protected place, is absolute, and does not
      begin with two slashes and no more. */
  lemma RefusedExactly(sourceRoot: string, cwd: Place, path: string)
    requires IsProperRoot(sourceRoot)
    ensures IsRefused(path, sourceRoot) <==>
      IsProtectedPlace(Locate(cwd, path), sourceRoot) && BeginsPlainly(path)
  {
    if LeadingSlashes(path) == 1 {
      NormalizedIsPlace(cwd, path);
    }
  }

  /** Every managed path to this place is absolute and does not begin with just two slashes. */
  predicate ManagedPlainly(cfg: Config, cwd: Place, place: Place) {
    forall path | path in cfg.managedFiles && Locate(cwd, path) == place :: BeginsPlainly(path)
  }

  lemma ProtectedStaysOnce(cfg: Config, m: Machine, op: Operation, w: World, place: Place)
    requires IsProperRoot(cfg.sourceRoot) && IsProtectedPlace(place, cfg.sourceRoot)
    requires ManagedPlainly(cfg, m.cwd, place) && Permitted(cfg, op) && NamesUnitPlainly(op)
    requires forall u | IsPlainName(u) && place == UNIT_DIR + [u] :: IsFloorProtected(u, cfg.floor)
    requires !(place <= UNIT_DIR)
    ensures FileAt(Performed(m, op, w), place) == FileAt(m, place)
  {
    hide IsFloorProtected, Locate, IsProtectedPlace, IsProperRoot, IsRefused, BeginsPlainly;
    match op
    case FileEdit(path, _) =>
      if Locate(m.cwd, path) == place {
        RefusedExactly(cfg.sourceRoot, m.cwd, path);
      }
    case ServiceAction(_, _) =>
    case UnitAction(name, action, _, _) =>
      if IsPlainName(name) {
        PlainNameIsInside(UNIT_DIR, name);
      } else {
        OddNamesGoUp(UNIT_DIR, name);
      }
  }

  /** A protected place is never written over a whole run that names units plainly, if the
      managed paths to it are plain, and if it is outside the unit directory or the
      file of a unit on the floor. */
  lemma {:induction false} ProtectedStays(cfg: Config, m: Machine, requests: seq<Request>, place: Place)
    requires IsProperRoot(cfg.sourceRoot) && IsProtectedPlace(place, cfg.sourceRoot)
    requires ManagedPlainly(cfg, m.cwd, place) && NameUnitsPlainly(requests)
    requires forall u | IsPlainName(u) && place == UNIT_DIR + [u] :: IsFloorProtected(u, cfg.floor)
    requires !(place <= UNIT_DIR)
    ensures FileAt(After(cfg, m, requests).machine, place) == FileAt(m, place)
  {
    hide IsProperRoot, IsProtectedPlace, ManagedPlainly, IsFloorProtected, Performed, NamesUnitPlainly, IsPlainName;
    var n := |requests|;
    if n > 0 {
      var earlier := requests[..n - 1];
      assert forall r | r in earlier :: r in requests;
      ProtectedStays(cfg, m, earlier, place);
      SameDirectory(cfg, m, earlier);
      var s, r := After(cfg, m, earlier), requests[n - 1];
      if Decide(cfg, s, r) == Run {
        ProtectedStaysOnce(cfg, s.machine, r.op, r.world, place);
      }
    }
  }

  const OWN_SERVICES: seq<string> := ["anima", "ssh", "sshd"]

  lemma NamesOfOwnService(name: string, i: nat)
    requires i < |OWN_SERVICES| && Canonical(name) == OWN_SERVICES[i] + ".service"
    ensures name == OWN_SERVICES[i] || name == OWN_SERVICES[i] + ".service"
  {
    var own := OWN_SERVICES[i];
    if !HasUnitSuffix(name) {
      assert |name| == |own|;
      assert name == (name + ".service")[..|name|] == (own + ".service")[..|own|] == own;
    }
  }

  /** A service's own name is stripped and in lower case. */
  lemma OwnNamesAreRefused(i: nat)
    requires i < |OWN_SERVICES|
    ensures IsSelfProtected(OWN_SERVICES[i]) && IsSelfProtected(OWN_SERVICES[i] + ".service")
  {
    var own := OWN_SERVICES[i];
    var full := own + ".service";
    StripOfStripped(own);
    StripOfStripped(full);
    assert forall k | 0 <= k < |own| :: LowerChar(own[k]) == own[k];
    assert forall k | 0 <= k < |full| :: LowerChar(full[k]) == full[k];
    assert Lower(own) == own && Lower(full) == full;
    FullNames();
  }

  lemma FullNames()
    ensures OWN_SERVICES[0] + ".service" == "anima.service"
    ensures OWN_SERVICES[1] + ".service" == "ssh.service"
    ensures OWN_SERVICES[2] + ".service" == "sshd.service"
  {
  }

  /** The run state of the being's own service and of the SSH daemon is never touched. */
  lemma {:induction false} OwnServicesUntouched(cfg: Config, m: Machine, requests: seq<Request>, i: nat)
    requires i < |OWN_SERVICES|
    ensures var service := OWN_SERVICES[i] + ".service";
      service in After(cfg, m, requests).machine.active <==> service in m.active
  {
    var n := |requests|;
    if n > 0 {
      OwnServicesUntouched(cfg, m, requests[..n - 1], i);
      var s, r := After(cfg, m, requests[..n - 1]), requests[n - 1];
      if Decide(cfg, s, r) == Run {
        OwnServicesUntouchedOnce(cfg, s.machine, r.op, r.world, i);
      }
    }
  }

  lemma OwnServicesUntouchedOnce(cfg: Config, m: Machine, op: Operation, w: World, i: nat)
    requires i < |OWN_SERVICES| && Permitted(cfg, op)
    ensures var service := OWN_SERVICES[i] + ".service";
      service in Performed(m, op, w).active <==> service in m.active
  {
    if op.ServiceAction? && Canonical(op.name) == OWN_SERVICES[i] + ".service" {
      NamesOfOwnService(op.name, i);
      OwnNamesAreRefused(i);
    }
  }

  // ---------------------------------------------------------------------------
  // Earned autonomy
  // ---------------------------------------------------------------------------

  /** Operations that earn autonomy together: of the same kind, by the same action, on the
      same path or name. */
  predicate SameClass(a: Operation, b: Operation) {
    match a
    case FileEdit(path, _) => b.FileEdit? && b.path == path
    case ServiceAction(name, action) => b.ServiceAction? && b.name == name && b.action == action
    case UnitAction(name, op, _, _) => b.UnitAction? && b.name == name && b.op == op
  }

  lemma SamePrefix(prefix: string, a: string, b: string)
    ensures prefix + a == prefix + b <==> a == b
  {
    if prefix + a == prefix + b {
      assert a == (prefix + a)[|prefix|..] == (prefix + b)[|prefix|..] == b;
    }
  }

  /** Which operations share a row of the table: those of one user and one class. */
  lemma KeysTellClasses(cfg: Config, cfg': Config, a: Operation, b: Operation)
    ensures KeyOf(cfg, a) == KeyOf(cfg', b) <==> cfg.userId == cfg'.userId && SameClass(a, b)
  {
    var x, y := KeyOf(cfg, a).operationClass, KeyOf(cfg', b).operationClass;
    assert a.FileEdit? <==> x[0] == 'f';
    assert b.FileEdit? <==> y[0] == 'f';
    assert a.UnitAction? <==> x[0] == 'u';
    assert b.UnitAction? <==> y[0] == 'u';
    if a.ServiceAction? && b.ServiceAction? {
      SamePrefix("service_", a.action, b.action);
    } else if a.UnitAction? && b.UnitAction? {
      SamePrefix("unit_topology_", a.op, b.op);
    }
  }

  /** For each request of this class that was run, in order, whether it was verified. */
  function Verdicts(cfg: Config, m: Machine, requests: seq<Request>, op: Operation): seq<bool> {
    var n := |requests|;
    if n == 0 then []
    else
      var before, r := requests[..n - 1], requests[n - 1];
      Verdicts(cfg, m, before, op) +
      (if Decide(cfg, After(cfg, m, before), r) == Run && SameClass(r.op, op) then [Verified(r.op, r.world)] else [])
  }

  /** How many pairs there are of one success right after another. */
  function Pairs(verdicts: seq<bool>): nat {
    var n := |verdicts|;
    if n < 2 then 0
    else if verdicts[n - 1] && verdicts[n - 2] then 1 + Pairs(verdicts[..n - 2])
    else Pairs(verdicts[..n - 1])
  }

  /** The number of successes at the end. */
  function Streak(verdicts: seq<bool>): nat {
    var n := |verdicts|;
    if n == 0 || !verdicts[n - 1] then 0 else 1 + Streak(verdicts[..n - 1])
  }

  function CountTrue(verdicts: seq<bool>): nat {
    var n := |verdicts|;
    if n == 0 then 0 else CountTrue(verdicts[..n - 1]) + if verdicts[n - 1] then 1 else 0
  }

  /** A success completes a pair exactly if it makes the streak even. */
  lemma {:induction false} PairsOneMore(verdicts: seq<bool>, verified: bool)
    ensures var more := verdicts + [verified];
      && Pairs(more) == Pairs(verdicts) + (if verified && Streak(more) % 2 == 0 then 1 else 0)
      && Streak(more) == if verified then Streak(verdicts) + 1 else 0
  {
    var n := |verdicts|;
    var more := verdicts + [verified];
    assert more[..n] == verdicts;
    if n > 0 {
      var front := verdicts[..n - 1];
      assert verdicts == front + [verdicts[n - 1]] && more[..n - 1] == front;
      PairsOneMore(front, verdicts[n - 1]);
    }
  }

  lemma {:induction false} PairsTakeTwo(verdicts: seq<bool>)
    ensures 2 * Pairs(verdicts) <= CountTrue(verdicts)
  {
    var n := |verdicts|;
    if n >= 2 {
      PairsTakeTwo(verdicts[..n - 1]);
      PairsTakeTwo(verdicts[..n - 2]);
      assert verdicts[..n - 1][..n - 2] == verdicts[..n - 2];
    }
  }

  /** How the ladder of a class stands after these verdicts. */
  predicate StandsBy(t: TrackState, verdicts: seq<bool>) {
    && t.lastFixBranch == None
    && t.verifiedSuccesses == Pairs(verdicts)
    && (t.pendingSince.Some? <==> Streak(verdicts) % 2 == 1)
    && (t.graduated <==> Pairs(verdicts) >= 3)
  }

  lemma OneMoreVerdict(t: TrackState, verdicts: seq<bool>, outcome: Outcome)
    requires StandsBy(t, verdicts)
    ensures StandsBy(Advance(t, AsCycle(outcome)), verdicts + [outcome.verified])
  {
    hide Pairs, Streak;
    PairsOneMore(verdicts, outcome.verified);
  }

  lemma HandledLadder(cfg: Config, s: System, r: Request, op: Operation)
    requires Recorded(s)
    ensures var t := Ladder(s, KeyOf(cfg, op));
      Ladder(Handle(cfg, s, r), KeyOf(cfg, op)) ==
        if Decide(cfg, s, r) == Run && SameClass(r.op, op)
        then Advance(t, AsCycle(Outcome(Verified(r.op, r.world), r.now))) else t
  {
    hide KeyOf, Performed, Verified, Decide, AdvanceAll, SameClass, Advance, OutcomesOf, AsCycles;
    if Decide(cfg, s, r) == Run {
      OneMoreRecorded(s, KeyOf(cfg, r.op), Outcome(Verified(r.op, r.world), r.now), KeyOf(cfg, op));
      KeysTellClasses(cfg, cfg, r.op, op);
    }
  }

  lemma {:induction false} LadderStandsBy(cfg: Config, m: Machine, requests: seq<Request>, op: Operation)
    ensures StandsBy(Ladder(After(cfg, m, requests), KeyOf(cfg, op)), Verdicts(cfg, m, requests, op))
  {
    hide KeyOf, Handle, Verified, Decide, Ladder, SameClass, StandsBy, Advance;
    var n := |requests|;
    if n == 0 {
      NothingEarned(cfg, m, op);
    } else {
      var before, r := requests[..n - 1], requests[n - 1];
      var s, verdicts := After(cfg, m, before), Verdicts(cfg, m, before, op);
      LadderStandsBy(cfg, m, before, op);
      HandledLadder(cfg, s, r, op);
      OneMoreVerdict(Ladder(s, KeyOf(cfg, op)), verdicts, Outcome(Verified(r.op, r.world), r.now));
      assert verdicts + [] == verdicts;
    }
  }

  lemma NothingEarned(cfg: Config, m: Machine, op: Operation)
    ensures StandsBy(Ladder(After(cfg, m, []), KeyOf(cfg, op)), [])
  {
    assert AsCycles([]) == [];
  }

  /** What runs unapproved has six verified requests of its class behind it, each run before:
      of the same kind, by the same action, on the same path or name. */
  lemma AutonomyIsEarned(cfg: Config, m: Machine, requests: seq<Request>, op: Operation, w: World, now: int)
    requires Decide(cfg, After(cfg, m, requests), Request(op, false, w, now)) == Run
    ensures Pairs(Verdicts(cfg, m, requests, op)) >= 3 && CountTrue(Verdicts(cfg, m, requests, op)) >= 6
  {
    LadderStandsBy(cfg, m, requests, op);
    PairsTakeTwo(Verdicts(cfg, m, requests, op));
  }

  /** An edit that nobody approved runs exactly if files are switched on, its path is on the
      allowlist with a validator and is not refused, and the edits of this path that were
      run before have three pairs of verified ones. */
  lemma FileEditRunsExactly(cfg: Config, m: Machine, requests: seq<Request>, path: string, content: string,
                            w: World, now: int)
    ensures var op := FileEdit(path, content);
      Decide(cfg, After(cfg, m, requests), Request(op, false, w, now)) == Run <==>
        && cfg.operatorEnabled && path in cfg.managedFiles && cfg.managedFiles[path] != ""
        && !IsRefused(path, cfg.sourceRoot)
        && Pairs(Verdicts(cfg, m, requests, op)) >= 3
  {
    hide IsRefused, Ladder, KeyOf, After, Verdicts, Pairs, Streak;
    LadderStandsBy(cfg, m, requests, FileEdit(path, content));
  }

  /** So does an action on a service, by the switch for services and the same action on the
      same name, if it is one of the three and the service is not the being's own or the
      SSH daemon. */
  lemma ServiceActionRunsExactly(cfg: Config, m: Machine, requests: seq<Request>, name: string, action: string,
                                 w: World, now: int)
    ensures var op := ServiceAction(name, action);
      Decide(cfg, After(cfg, m, requests), Request(op, false, w, now)) == Run <==>
        && cfg.serviceEnabled && name in cfg.managedServices && cfg.managedServices[name] != ""
        && action in {"restart", "start", "stop"}
        && Lower(Strip(name)) !in {"anima", "anima.service", "ssh", "ssh.service", "sshd", "sshd.service"}
        && Pairs(Verdicts(cfg, m, requests, op)) >= 3
  {
    hide Lower, Strip, Ladder, KeyOf, After, Verdicts, Pairs, Streak;
    LadderStandsBy(cfg, m, requests, ServiceAction(name, action));
  }

  /** Of the operations on a unit only writing and deleting its file ever run unapproved, if
      units are switched on and it is on the allowlist and not on the floor. A refusal for
      the floor comes before all else. */
  lemma UnitActionRunsExactly(cfg: Config, m: Machine, requests: seq<Request>, name: string, action: string,
                              unitFile: Option<string>, target: Option<string>, w: World, now: int)
    ensures var op := UnitAction(name, action, unitFile, target);
      var decision := Decide(cfg, After(cfg, m, requests), Request(op, false, w, now));
      var inOrder := action == "delete" || (action == "author" && unitFile.Some? && unitFile.value != "");
      && (decision == Run <==>
            && inOrder && !IsFloorProtected(name, cfg.floor)
            && cfg.unitTopologyEnabled && name in cfg.managedUnits
            && Pairs(Verdicts(cfg, m, requests, op)) >= 3)
      && (decision == Refuse <==>
            action !in {"enable", "disable", "set_default"} && (IsFloorProtected(name, cfg.floor) || !inOrder))
  {
    hide IsFloorProtected, Ladder, KeyOf, After, Verdicts, Pairs, Streak;
    LadderStandsBy(cfg, m, requests, UnitAction(name, action, unitFile, target));
  }
}

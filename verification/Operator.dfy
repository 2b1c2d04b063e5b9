/** Reversible operations on the managed machine: capture, apply, verify, keep or restore;
    the gates in front of them; and what holds over whole runs of them. */
module Operator {
  import opened Options
  import opened Paths
  import opened Text
  import opened TrackRecord
  import opened UnitFloor

  /** What the operator manages. Run states and enable states are kept by the unit that a
      name stands for, files by the place that a path leads to from the working directory. */
  datatype Machine = Machine(
    cwd: Place,
    files: map<Place, string>,
    active: set<string>,
    enabled: set<string>,
    defaultTarget: string)

  datatype Operation =
    | FileEdit(path: string, content: string)
    | ServiceAction(name: string, action: string)
    | UnitAction(name: string, op: string, unitFile: Option<string>, target: Option<string>)

  /** What the outside world does in one operation: whether the service runs after the
      command, whether the validator passes (raising counts as failing), and whether the
      service runs after the command that is to restore it. `also` are the other units that
      are enabled or disabled with the named one: those its unit file names for that. */
  datatype World = World(runs: bool, passes: bool, runsAgain: bool, also: set<string>)

  const SELF_PROTECTED_SERVICES: set<string> :=
    {"anima.service", "anima", "ssh.service", "ssh", "sshd.service", "sshd"}

  const ALLOWED_DEFAULT_TARGETS: set<string> := {"multi-user.target", "graphical.target"}

  const BOOT_GRAPH_OPS: set<string> := {"enable", "disable", "set_default"}

  /** The target that a `set_default` is for. */
  function EffectiveTarget(name: string, target: Option<string>): string {
    if target.Some? && target.value != "" then target.value else name
  }

  // ---------------------------------------------------------------------------
  // One operation
  // ---------------------------------------------------------------------------

  function WithRunState(m: Machine, name: string, runs: bool): Machine {
    m.(active := if runs then m.active + {Canonical(name)} else m.active - {Canonical(name)})
  }

  function WithFile(m: Machine, place: Place, content: Option<string>): Machine {
    m.(files := if content.Some? then m.files[place := content.value] else m.files - {place})
  }

  function FileAt(m: Machine, place: Place): Option<string> {
    if place in m.files then Some(m.files[place]) else None
  }

  /** The units that are enabled or disabled under this name. */
  function Installed(name: string, w: World): set<string> {
    {UnitOf(name)} + w.also
  }

  function Applied(m: Machine, op: Operation, w: World): Machine {
    match op
    case FileEdit(path, content) => WithFile(m, Locate(m.cwd, path), Some(content))
    case ServiceAction(name, action) => WithRunState(m, name, w.runs)
    case UnitAction(name, op, unitFile, target) =>
      if op == "author" then WithFile(m, UnitFile(name), unitFile)
      else if op == "delete" then WithFile(m, UnitFile(name), None)
      else if op == "enable" then m.(enabled := m.enabled + Installed(name, w))
      else if op == "disable" then m.(enabled := m.enabled - Installed(name, w))
      else m.(defaultTarget := EffectiveTarget(name, target))
  }

  predicate Verified(op: Operation, w: World) {
    match op
    case FileEdit(_, _) => w.passes
    case ServiceAction(_, action) => if action == "stop" then !w.runs else w.runs && w.passes
    case UnitAction(_, _, _, _) => w.passes
  }

  /** What reading a unit file as text gives: every line ends in a newline. */
  function AsText(content: Option<string>): Option<string> {
    if content.Some? then Some(UniversalNewlines(content.value)) else None
  }

  /** Restoring a service may take a command, which does not report its failure. A unit file
      is read as text, so carriage returns are lost. Units that are enabled or disabled
      along with another one are taken to have been like it. */
  predicate RestoreWorks(m: Machine, op: Operation, w: World) {
    match op
    case FileEdit(_, _) => true
    case ServiceAction(name, _) =>
      var ran := Canonical(name) in m.active;
      ran == w.runs || ran == w.runsAgain
    case UnitAction(name, action, _, _) =>
      if action in {"author", "delete"} then
        UnitFile(name) in m.files ==> NoReturns(m.files[UnitFile(name)])
      else if action in {"enable", "disable"} then
        forall u | u in w.also :: u in m.enabled <==> UnitOf(name) in m.enabled
      else true
  }

  /** The state after an operation was applied and then undone. */
  function Undone(m: Machine, op: Operation, w: World): Machine {
    match op
    case FileEdit(_, _) => m
    case ServiceAction(name, _) =>
      if (Canonical(name) in m.active) == w.runs then m else WithRunState(m, name, w.runsAgain)
    case UnitAction(name, action, _, _) =>
      if action in {"author", "delete"} then
        WithFile(m, UnitFile(name), AsText(FileAt(m, UnitFile(name))))
      else if action in {"enable", "disable"} then
        if UnitOf(name) in m.enabled then m.(enabled := m.enabled + Installed(name, w))
        else m.(enabled := m.enabled - Installed(name, w))
      else m
  }

  /** The state after an operation was applied and then kept or restored. */
  function Performed(m: Machine, op: Operation, w: World): Machine {
    if Verified(op, w) then Applied(m, op, w) else Undone(m, op, w)
  }

  /** Undoing is exact if and only if restoring works. */
  lemma UndoneExactly(m: Machine, op: Operation, w: World)
    ensures Undone(m, op, w) == m <==> RestoreWorks(m, op, w)
  {
    match op
    case FileEdit(_, _) =>
    case ServiceAction(name, _) =>
      assert WithRunState(m, name, w.runsAgain) == m <==> (Canonical(name) in m.active) == w.runsAgain;
    case UnitAction(name, action, _, _) =>
      if action in {"author", "delete"} {
        FileUndoneExactly(m, UnitFile(name));
      } else if action in {"enable", "disable"} {
        InstallUndoneExactly(m, UnitOf(name), w.also);
      }
  }

  lemma FileUndoneExactly(m: Machine, place: Place)
    ensures WithFile(m, place, AsText(FileAt(m, place))) == m <==>
      (place in m.files ==> NoReturns(m.files[place]))
  {
    if place in m.files {
      UniversalNewlinesExactly(m.files[place]);
      assert WithFile(m, place, AsText(FileAt(m, place))).files[place] == UniversalNewlines(m.files[place]);
      if NoReturns(m.files[place]) {
        assert m.files[place := m.files[place]] == m.files;
      }
    } else {
      assert m.files - {place} == m.files;
    }
  }

  lemma InstallUndoneExactly(m: Machine, unit: string, also: set<string>)
    ensures (if unit in m.enabled then m.enabled + ({unit} + also) else m.enabled - ({unit} + also)) == m.enabled <==>
      forall u | u in also :: u in m.enabled <==> unit in m.enabled
  {
    var all := {unit} + also;
    if unit in m.enabled {
      assert m.enabled + all == m.enabled <==> forall u | u in all :: u in m.enabled;
    } else {
      assert m.enabled - all == m.enabled <==> forall u | u in all :: u !in m.enabled;
    }
  }

  class Host {
    const cwd: Place
    var files: map<Place, string>
    var active: set<string>
    var enabled: set<string>
    var defaultTarget: string

    function State(): Machine
      reads this
    {
      Machine(cwd, files, active, enabled, defaultTarget)
    }

    constructor (m: Machine)
      ensures State() == m
    {
      cwd := m.cwd;
      files, active, enabled, defaultTarget := m.files, m.active, m.enabled, m.defaultTarget;
    }

    method PutFile(place: Place, content: Option<string>)
      modifies this
      ensures State() == WithFile(old(State()), place, content)
    {
      files := if content.Some? then files[place := content.value] else files - {place};
    }

    method Command(name: string, runs: bool)
      modifies this
      ensures State() == WithRunState(old(State()), name, runs)
    {
      active := if runs then active + {Canonical(name)} else active - {Canonical(name)};
    }

    /** Keeps what has been verified, and otherwise puts back what was captured. */
    method RunFileEdit(path: string, content: string, w: World) returns (verified: bool)
      modifies this
      ensures verified == Verified(FileEdit(path, content), w)
      ensures State() == Performed(old(State()), FileEdit(path, content), w)
      ensures verified == w.passes
      ensures files == if w.passes then old(files)[Locate(cwd, path) := content] else old(files)
      ensures active == old(active) && enabled == old(enabled) && defaultTarget == old(defaultTarget)
    {
      var place := Locate(cwd, path);
      var snapshot := FileAt(State(), place);
      PutFile(place, Some(content));
      verified := w.passes;
      if !verified {
        PutFile(place, snapshot);
        assert files == old(files);
      }
    }

    method RunServiceAction(name: string, action: string, w: World) returns (verified: bool)
      modifies this
      ensures verified == Verified(ServiceAction(name, action), w)
      ensures State() == Performed(old(State()), ServiceAction(name, action), w)
      ensures verified <==> if action == "stop" then !w.runs else w.runs && w.passes
      ensures Canonical(name) in active <==>
        if verified || (Canonical(name) in old(active)) == w.runs then w.runs else w.runsAgain
      ensures forall u | u != Canonical(name) :: u in active <==> u in old(active)
      ensures files == old(files) && enabled == old(enabled) && defaultTarget == old(defaultTarget)
    {
      var wasActive := Canonical(name) in active;
      Command(name, w.runs);
      var isActive := Canonical(name) in active;
      verified := if action == "stop" then !isActive else isActive && w.passes;
      if !verified {
        if wasActive != isActive {
          Command(name, w.runsAgain);
        }
        assert wasActive == isActive ==> active == old(active);
        assert wasActive != isActive ==> State() == WithRunState(old(State()), name, w.runsAgain);
      }
    }

    method RunUnitAction(name: string, op: string, unitFile: Option<string>, target: Option<string>, w: World)
      returns (verified: bool)
      modifies this
      ensures verified == Verified(UnitAction(name, op, unitFile, target), w)
      ensures State() == Performed(old(State()), UnitAction(name, op, unitFile, target), w)
      ensures verified == w.passes && active == old(active)
      ensures op == "author" && unitFile.Some? && verified ==> files == old(files)[UnitFile(name) := unitFile.value]
      ensures op == "delete" && verified ==> files == old(files) - {UnitFile(name)}
      ensures op in {"author", "delete"} && !verified ==>
        files == if UnitFile(name) in old(files)
          then old(files)[UnitFile(name) := UniversalNewlines(old(files)[UnitFile(name)])] else old(files)
      ensures op !in {"author", "delete"} ==> files == old(files)
      ensures op == "enable" ==>
        enabled == if verified || UnitOf(name) in old(enabled)
          then old(enabled) + ({UnitOf(name)} + w.also) else old(enabled) - ({UnitOf(name)} + w.also)
      ensures op == "disable" ==>
        enabled == if verified || UnitOf(name) !in old(enabled)
          then old(enabled) - ({UnitOf(name)} + w.also) else old(enabled) + ({UnitOf(name)} + w.also)
      ensures op !in {"enable", "disable"} ==> enabled == old(enabled)
      ensures op == "set_default" && verified ==>
        defaultTarget == if target.Some? && target.value != "" then target.value else name
      ensures op in {"author", "delete", "enable", "disable"} || !verified ==>
        defaultTarget == old(defaultTarget)
    {
      var priorContent := AsText(FileAt(State(), UnitFile(name)));
      var priorEnabled := UnitOf(name) in enabled;
      var priorDefault := defaultTarget;
      match op {
        case "author" => PutFile(UnitFile(name), unitFile);
        case "delete" => PutFile(UnitFile(name), None);
        case "enable" => enabled := enabled + Installed(name, w);
        case "disable" => enabled := enabled - Installed(name, w);
        case _ => defaultTarget := EffectiveTarget(name, target);
      }
      verified := w.passes;
      if !verified {
        match op {
          case "author" | "delete" =>
            PutFile(UnitFile(name), priorContent);
            assert State() == WithFile(old(State()), UnitFile(name), priorContent);
          case "enable" =>
            if !priorEnabled {
              enabled := enabled - Installed(name, w);
            }
            assert !priorEnabled ==> enabled == old(enabled) - Installed(name, w);
          case "disable" =>
            if priorEnabled {
              enabled := enabled + Installed(name, w);
            }
            assert priorEnabled ==> enabled == old(enabled) + Installed(name, w);
          case _ =>
            defaultTarget := priorDefault;
        }
      }
    }

    /** capture, apply, verify, keep or restore. */
    method RunReversible(op: Operation, w: World) returns (verified: bool)
      modifies this
      ensures verified == Verified(op, w) && State() == Performed(old(State()), op, w)
    {
      match op
      case FileEdit(path, content) => verified := RunFileEdit(path, content, w);
      case ServiceAction(name, action) => verified := RunServiceAction(name, action, w);
      case UnitAction(name, action, unitFile, target) =>
        verified := RunUnitAction(name, action, unitFile, target, w);
    }
  }

  // ---------------------------------------------------------------------------
  // Gates
  // ---------------------------------------------------------------------------

  /** The owner's settings and allowlists, the latter with the validators of their targets.
      `sourceRoot` is the path of the being's own source tree. */
  datatype Config = Config(
    userId: string,
    operatorEnabled: bool,
    serviceEnabled: bool,
    unitTopologyEnabled: bool,
    managedFiles: map<string, string>,
    managedServices: map<string, string>,
    managedUnits: set<string>,
    sourceRoot: string,
    floor: set<string>)

  predicate IsSelfProtected(name: string) {
    Lower(Strip(name)) in SELF_PROTECTED_SERVICES
  }

  const OWN_UNIT_FILE: Place := ["etc", "systemd", "system", "anima.service"]

  const FRONT_DOOR_FILE: Place := ["etc", "ssh", "sshd_config.d", "50-anima-frontdoor.conf"]

  /** Of two normal paths: the text of the first is that of the second, or goes on after it
      with a slash. The root directory's text ends in its slash. */
  predicate IsWithin(n: Normal, root: Normal) {
    || n == root
    || (n.slashes == root.slashes && root.parts != [] && root.parts <= n.parts)
    || (root == Normal(1, []) && n.slashes == 2)
  }

  /** The file operator refuses to write its own unit, the front door's settings, and
      anything in its own source tree; it compares normalised paths. */
  predicate IsRefused(path: string, sourceRoot: string) {
    var n := Normalized(path);
    n == Normal(1, OWN_UNIT_FILE) || n == Normal(1, FRONT_DOOR_FILE) || IsWithin(n, Normalized(sourceRoot))
  }

  /** Whether the operation can be constructed and is not refused when it is applied. */
  predicate Permitted(cfg: Config, op: Operation) {
    match op
    case FileEdit(path, _) =>
      path in cfg.managedFiles && cfg.managedFiles[path] != "" && !IsRefused(path, cfg.sourceRoot)
    case ServiceAction(name, action) =>
      && !IsSelfProtected(name)
      && action in {"restart", "start", "stop"}
      && name in cfg.managedServices && cfg.managedServices[name] != ""
    case UnitAction(name, op, unitFile, target) =>
      && op in BOOT_GRAPH_OPS + {"author", "delete"}
      && (if op == "set_default" then EffectiveTarget(name, target) in ALLOWED_DEFAULT_TARGETS
          else !IsFloorProtected(name, cfg.floor))
      && (op == "author" ==> unitFile.Some? && unitFile.value != "")
  }

  predicate IsBootGraphOp(op: Operation) {
    op.UnitAction? && op.op in BOOT_GRAPH_OPS
  }

  predicate IsEnabled(cfg: Config, op: Operation) {
    match op
    case FileEdit(_, _) => cfg.operatorEnabled
    case ServiceAction(_, _) => cfg.serviceEnabled
    case UnitAction(_, _, _, _) => cfg.unitTopologyEnabled
  }

  predicate IsManaged(cfg: Config, op: Operation) {
    match op
    case FileEdit(path, _) => path in cfg.managedFiles
    case ServiceAction(name, _) => name in cfg.managedServices
    case UnitAction(name, _, _, _) => name in cfg.managedUnits
  }

  function KeyOf(cfg: Config, op: Operation): Key {
    match op
    case FileEdit(path, _) => Key(cfg.userId, "file_edit", path)
    case ServiceAction(name, action) => Key(cfg.userId, "service_" + action, name)
    case UnitAction(name, op, _, _) => Key(cfg.userId, "unit_topology_" + op, name)
  }

  datatype Decision = Propose | Refuse | Run

  /** The gate of an operation that nobody has approved. The two orders of the checks are
      those of the file and service gates, and of the unit gate. */
  function Gate(cfg: Config, op: Operation, graduated: bool): Decision {
    if IsBootGraphOp(op) then Propose
    else if op.UnitAction? && !Permitted(cfg, op) then Refuse
    else if !IsManaged(cfg, op) || !IsEnabled(cfg, op) || !graduated then Propose
    else if !Permitted(cfg, op) then Refuse
    else Run
  }

  /** The gate of an operation that the owner has approved. */
  function ApprovedGate(cfg: Config, op: Operation): Decision {
    if Permitted(cfg, op) then Run else Refuse
  }

  /** A request to the operator, approved by the owner or not. */
  datatype Request = Request(op: Operation, approved: bool, world: World, now: int)

  /** The machine and the outcomes recorded so far. */
  datatype System = System(machine: Machine, keys: seq<Key>, outcomes: seq<Outcome>)

  predicate Recorded(s: System) {
    |s.keys| == |s.outcomes|
  }

  /** Where the record has brought a key. */
  function Ladder(s: System, key: Key): TrackState
    requires Recorded(s)
  {
    AdvanceAll(AsCycles(OutcomesOf(s.keys, s.outcomes, key)))
  }

  function Decide(cfg: Config, s: System, r: Request): Decision
    requires Recorded(s)
  {
    if r.approved then ApprovedGate(cfg, r.op) else Gate(cfg, r.op, Ladder(s, KeyOf(cfg, r.op)).graduated)
  }

  /** What one request does: nothing unless it is run, and then the operation and one
      more outcome. */
  function Handle(cfg: Config, s: System, r: Request): (s': System)
    requires Recorded(s)
    ensures Recorded(s')
  {
    if Decide(cfg, s, r) != Run then s
    else System(Performed(s.machine, r.op, r.world),
                s.keys + [KeyOf(cfg, r.op)],
                s.outcomes + [Outcome(Verified(r.op, r.world), r.now)])
  }

  class Operator {
    const cfg: Config
    const host: Host
    const store: Store
    ghost var keys: seq<Key>
    ghost var outcomes: seq<Outcome>

    ghost function View(): System
      reads this, host
    {
      System(host.State(), keys, outcomes)
    }

    ghost predicate Valid()
      reads this, host, store
    {
      && Recorded(View())
      && forall key :: Loaded(store.rows, key) == Ladder(View(), key)
    }

    constructor (cfg: Config, host: Host)
      ensures Valid() && fresh(store)
      ensures this.cfg == cfg && this.host == host && View() == System(host.State(), [], [])
    {
      this.cfg, this.host := cfg, host;
      store := new Store();
      keys, outcomes := [], [];
    }

    /** Files the outcome of an operation that was run. */
    method Record(key: Key, outcome: Outcome)
      requires Valid()
      modifies this, store
      ensures Valid() && View() == System(old(host.State()), old(keys) + [key], old(outcomes) + [outcome])
    {
      var _ := store.Update(key, outcome);
      ghost var s := View();
      keys, outcomes := keys + [key], outcomes + [outcome];
      forall other ensures Loaded(store.rows, other) == Ladder(View(), other) {
        OneMoreRecorded(s, key, outcome, other);
      }
    }

    /** The entry points for operations that nobody has approved. */
    method Operate(op: Operation, w: World, now: int) returns (decision: Decision)
      requires Valid()
      modifies this, host, store
      ensures Valid() && decision == Decide(cfg, old(View()), Request(op, false, w, now))
      ensures View() == Handle(cfg, old(View()), Request(op, false, w, now))
    {
      if IsBootGraphOp(op) {
        return Propose;
      }
      if op.UnitAction? && !Permitted(cfg, op) {
        return Refuse;
      }
      if !IsManaged(cfg, op) || !IsEnabled(cfg, op) {
        return Propose;
      }
      var track := store.Get(KeyOf(cfg, op));
      if !track.graduated {
        return Propose;
      }
      if !Permitted(cfg, op) {
        return Refuse;
      }
      var verified := host.RunReversible(op, w);
      Record(KeyOf(cfg, op), Outcome(verified, now));
      return Run;
    }

    /** The entry points for operations that the owner has approved: no switch, no
        graduation, and for units no allowlist, but the same refusals. */
    method ExecuteApproved(op: Operation, w: World, now: int) returns (decision: Decision)
      requires Valid()
      modifies this, host, store
      ensures Valid() && decision == Decide(cfg, old(View()), Request(op, true, w, now))
      ensures View() == Handle(cfg, old(View()), Request(op, true, w, now))
    {
      if !Permitted(cfg, op) {
        return Refuse;
      }
      var verified := host.RunReversible(op, w);
      Record(KeyOf(cfg, op), Outcome(verified, now));
      return Run;
    }
  }

  lemma OneMoreRecorded(s: System, key: Key, outcome: Outcome, other: Key)
    requires Recorded(s)
    ensures var s' := System(s.machine, s.keys + [key], s.outcomes + [outcome]);
      Ladder(s', other) == if other == key then Advance(Ladder(s, other), AsCycle(outcome)) else Ladder(s, other)
  {
    var keys, outcomes := s.keys + [key], s.outcomes + [outcome];
    var n := |s.keys|;
    OneMoreOutcome(keys, outcomes, n, other);
    assert keys[..n] == s.keys && outcomes[..n] == s.outcomes;
    assert keys[..n + 1] == keys && outcomes[..n + 1] == outcomes;
  }
}

/** The floor of units that may not be touched, and the names it is asked for. */
module UnitFloor {
  import opened Paths
  import opened Splitting

  /** Units whose loss would lock the owner out, under the names the floor starts from. */
  const FLOOR_UNIT_SEED: set<string> := {
    "sshd.service", "sshd", "ssh.service", "ssh", "systemd", "init",
    "systemd-networkd.service", "systemd-networkd", "NetworkManager.service", "NetworkManager",
    "network.target", "network", "network-online.target", "network-online",
    "anima.service", "anima",
    "rawos-bpf-lsm-holder.service", "rawos-bpf-lsm-holder",
    "rawos-bpf-lsm-revert.service", "rawos-bpf-lsm-revert",
    "anima-pam-revert.service", "anima-pam-revert",
    "anima-unit-topology-revert.service", "anima-unit-topology-revert",
    "rawos-venv-revert.service", "rawos-venv-revert",
    "systemd-logind.service", "systemd-logind", "getty@.service", "getty@tty1.service", "getty@",
    "anima-frontdoor.service", "anima-frontdoor",
    "basic.target", "sysinit.target", "multi-user.target", "default.target", "graphical.target",
    "dbus.service", "dbus", "systemd-journald.service", "systemd-journald"
  }

  predicate NoneBeginsWithDot(floor: set<string>) {
    forall u | u in floor && u != "" :: u[0] != '.'
  }

  /** What is asked of a floor below holds of the seed. */
  lemma NamesOfSeed()
    ensures "" !in FLOOR_UNIT_SEED && NoneBeginsWithDot(FLOOR_UNIT_SEED)
  {
    assert forall u | u in FLOOR_UNIT_SEED :: |u| > 0;
  }

  /** The position of the last dot, -1 without one. */
  function LastDot(name: string): (p: int)
    ensures -1 <= p < |name|
    ensures p >= 0 ==> name[p] == '.'
    ensures forall i | p < i < |name| :: name[i] != '.'
  {
    if name == "" then -1
    else if name[|name| - 1] == '.' then |name| - 1
    else LastDot(name[..|name| - 1])
  }

  predicate HasBare(name: string) {
    LastDot(name) > 0
  }

  /** The name without its last suffix. */
  function Bare(name: string): string
    requires HasBare(name)
  {
    name[..LastDot(name)]
  }

  const UNIT_SUFFIXES: set<string> := {
    ".service", ".socket", ".device", ".mount", ".automount", ".swap", ".target", ".path", ".timer", ".slice",
    ".scope"
  }

  predicate HasUnitSuffix(name: string) {
    HasBare(name) && name[LastDot(name)..] in UNIT_SUFFIXES
  }

  /** The full name of a unit: what has none of the suffixes of units is a service. */
  function Canonical(name: string): string {
    if HasUnitSuffix(name) then name else name + ".service"
  }

  /** A full name, or one without a dot. */
  predicate IsUnitName(name: string) {
    LastDot(name) < 0 || HasUnitSuffix(name)
  }

  /** The unit that is enabled or disabled under a name, which may be given as a path. */
  function UnitOf(name: string): string {
    Canonical(LastPart(name))
  }

  const UNIT_DIR: Place := ["etc", "systemd", "system"]

  /** The file that is written or deleted for a name: the name is joined to the directory
      as a path, so an absolute one stays as it is. */
  function UnitFile(name: string): Place {
    Locate(UNIT_DIR, name)
  }

  function BareForms(units: set<string>): set<string> {
    set u | u in units && HasBare(u) :: Bare(u)
  }

  /** What the first pass collects from the units that the seed depends on. */
  function Listed(seed: set<string>, units: seq<string>): set<string> {
    var parsed := set u | u in units;
    seed + parsed + BareForms(parsed)
  }

  /** The floor of the seed and of the units it depends on, with their bare names. */
  method ComputeFloorClosure(seed: set<string>, units: seq<string>) returns (floor: set<string>)
    ensures floor == Listed(seed, units) + BareForms(Listed(seed, units))
    ensures seed <= floor && forall u | u in units :: u in floor
    ensures forall u | (u in seed || u in units) && HasBare(u) :: Bare(u) in floor
    ensures forall u | u in floor ::
      u in seed || u in units || exists v :: v in floor && HasBare(v) && u == Bare(v)
  {
    floor := seed;
    var i := 0;
    while i < |units|
      invariant 0 <= i <= |units|
      invariant floor == Listed(seed, units[..i])
    {
      assert units[..i + 1] == units[..i] + [units[i]];
      floor := floor + {units[i]};
      if HasBare(units[i]) {
        floor := floor + {Bare(units[i])};
      }
      i := i + 1;
    }
    assert units[..i] == units;
    var extra: set<string> := {};
    var left := floor;
    while left != {}
      invariant left <= floor && extra == BareForms(floor - left)
      decreases left
    {
      var u :| u in left;
      left := left - {u};
      if HasBare(u) {
        extra := extra + {Bare(u)};
      }
      assert floor - left == floor - left - {u} + {u};
    }
    assert floor - left == floor;
    floor := floor + extra;
  }

  predicate IsFloorProtected(name: string, floor: set<string>) {
    || name in floor
    || (HasBare(name) && Bare(name) in floor)
    || (LastDot(name) < 0 && name + ".service" in floor)
  }

  lemma {:induction false} LastDotOfService(name: string)
    ensures LastDot(name + ".service") == |name|
  {
    var full := name + ".service";
    assert full[|name|] == '.';
    assert forall i | |name| < i < |full| :: full[i] == ".service"[i - |name|] != '.';
  }

  lemma UnitOfPlain(name: string)
    requires Lacks(name, '/')
    ensures UnitOf(name) == Canonical(name)
  {
    SplitLast(name, '/');
  }

  /** Among names without a slash which have the suffix of a unit or no dot, whether one is
      refused depends only on the unit that the system manager takes it to mean. */
  lemma ProtectionFollowsTheUnit(name: string, other: string, floor: set<string>)
    requires "" !in floor && Lacks(name, '/') && Lacks(other, '/') && UnitOf(name) == UnitOf(other)
    requires IsUnitName(name) && IsUnitName(other)
    ensures IsFloorProtected(name, floor) <==> IsFloorProtected(other, floor)
  {
    UnitOfPlain(name);
    UnitOfPlain(other);
    ProtectionOfCanonical(name, floor);
    ProtectionOfCanonical(other, floor);
  }

  /** With another suffix it does not: such a name is refused for what is before its dot, and
      the full name of the same service is not. */
  lemma OtherSuffixEscapes(name: string, floor: set<string>)
    requires Lacks(name, '/') && HasBare(name) && !HasUnitSuffix(name) && Bare(name) in floor
    requires name !in floor && name + ".service" !in floor
    ensures UnitOf(name) == UnitOf(name + ".service")
    ensures IsFloorProtected(name, floor) && !IsFloorProtected(name + ".service", floor)
  {
    var full := name + ".service";
    LastDotOfService(name);
    assert full[..|name|] == name && full[|name|..] == ".service";
    assert Lacks(".service", '/');
    UnitOfPlain(name);
    UnitOfPlain(full);
  }

  /** For example "network.foo". */
  lemma NetworkFooEscapes()
    ensures var name := "network.foo";
      && UnitOf(name) == UnitOf(name + ".service")
      && IsFloorProtected(name, FLOOR_UNIT_SEED) && !IsFloorProtected(name + ".service", FLOOR_UNIT_SEED)
  {
    var name := "network.foo";
    assert name[7] == '.' && Lacks(name, '/') && LastDot(name) == 7 && name[..7] == "network";
    assert name[7..] == ".foo" && ".foo" !in UNIT_SUFFIXES;
    FooIsNotInSeed();
    hide FLOOR_UNIT_SEED, UNIT_SUFFIXES, LastDot, IsFloorProtected, UnitOf;
    OtherSuffixEscapes(name, FLOOR_UNIT_SEED);
  }

  lemma FooIsNotInSeed()
    ensures "network" in FLOOR_UNIT_SEED
    ensures "network.foo" !in FLOOR_UNIT_SEED && "network.foo" + ".service" !in FLOOR_UNIT_SEED
  {
    assert forall u | u in FLOOR_UNIT_SEED && |u| > 8 :: u[8] != 'f' || u[0] != 'n';
    assert ("network.foo" + ".service")[8] == 'f';
  }

  /** With a slash it does not either: every unit has another name, for the same unit and the same
      file, that a floor whose names begin with no dot does not refuse. */
  lemma PathsEscapeTheFloor(u: string, floor: set<string>)
    requires IsPlainName(u) && NoneBeginsWithDot(floor)
    ensures var path := "./" + u;
      UnitOf(path) == UnitOf(u) && UnitFile(path) == UnitFile(u) && !IsFloorProtected(path, floor)
  {
    var path := "./" + u;
    DotSlashIsTheSame(UNIT_DIR, u);
    DotSlashLastPart(u);
    assert path[0] == '.' && path[1] == '/';
    assert HasBare(path) ==> Bare(path)[0] == '.';
  }

  lemma ProtectionOfCanonical(name: string, floor: set<string>)
    requires "" !in floor && (IsUnitName(name) || name in floor)
    ensures IsFloorProtected(name, floor) <==> IsFloorProtected(Canonical(name), floor)
  {
    if !HasUnitSuffix(name) {
      LastDotOfService(name);
      assert (name + ".service")[..|name|] == name;
    }
  }

  /** Every unit that the floor is computed from is refused, under its own name, its bare
      name and its full one; and the empty name is never part of the floor. */
  lemma ClosureProtects(seed: set<string>, units: seq<string>, floor: set<string>, u: string)
    requires "" !in units && "" !in seed && floor == Listed(seed, units) + BareForms(Listed(seed, units))
    requires u in units || u in seed
    ensures "" !in floor
    ensures IsFloorProtected(u, floor) && IsFloorProtected(Canonical(u), floor)
    ensures HasBare(u) ==> IsFloorProtected(Bare(u), floor)
  {
    assert u in Listed(seed, units);
    if HasBare(u) {
      assert Bare(u) in BareForms(Listed(seed, units));
    }
    ProtectionOfCanonical(u, floor);
  }
}

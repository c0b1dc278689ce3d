/** The Linux factories: what is registered in production, what each probe looks at, and the package advisor. */
module LinuxBackends {
  import opened Prelude
  import opened Sorting
  import opened Registry

  /** What a probe can see: commands on PATH, `ID=` of os-release, `systemctl is-system-running`, /dev/net/tun. */
  datatype Machine = Machine(commands: set<string>, distribution: Option<string>, systemd: Result<string, string>,
    tunDevice: bool)

  datatype LinuxFactory = LinuxFactory(id: string, capabilities: set<Capability>, requirements: seq<string>) {

    function Describe(): Descriptor {
      Descriptor(id, 1, capabilities)
    }

    /** Missing commands are reported before anything else is looked at. */
    function ProbeOn(m: Machine): Result<Probe, string> {
      var missing := Select(requirements, Absent(m.commands));
      if missing != [] then Success(Probe(false, Some("missing: " + Join(missing))))
      else if id == "arch" && m.distribution != Some("arch") && m.distribution != Some("endeavouros") then
        Success(Probe(false, Some("host is not Arch Linux or EndeavourOS")))
      else if id == "systemd" && m.systemd.Failure? then Failure(m.systemd.at)
      else if id == "systemd" && m.systemd.value != "running" && m.systemd.value != "degraded" then
        Success(Probe(false,
          Some("systemd system manager" + (" is not running (state: " + StateName(m.systemd.value) + ")"))))
      else if id == "xray-linux-tun" && !m.tunDevice then Success(Probe(false, Some("/dev/net/tun is unavailable")))
      else Success(Probe(true, None))
    }

    function On(m: Machine): Factory {
      Factory(Describe(), ProbeOn(m))
    }
  }

  function Absent(commands: set<string>): string -> bool {
    program => program !in commands
  }

  function StateName(state: string): string {
    if state == "" then "unknown" else state
  }

  function Join(parts: seq<string>): string {
    if parts == [] then "" else if |parts| == 1 then parts[0] else parts[0] + ", " + Join(parts[1..])
  }

  const LAYOUT := LinuxFactory("linux-fhs", {Layout}, [])
  const ARCH := LinuxFactory("arch", {Install, PackageAdvice}, ["pacman"])
  const IDENTITY :=
    LinuxFactory("linux-identity", {Identity}, ["chown", "getent", "groupadd", "gpasswd", "id", "useradd", "usermod"])
  const SYSTEMD := LinuxFactory("systemd", {Service}, ["systemctl", "journalctl"])
  const NFTABLES := LinuxFactory("nftables", {Firewall}, ["nft"])
  const IPROUTE := LinuxFactory("iproute2", {PolicyRouting}, ["ip"])
  const TUN := LinuxFactory("xray-linux-tun", {Tun}, ["ip"])
  const NAMESPACES :=
    LinuxFactory("linux-gid-mountns", {AppRunner, MountIsolation}, ["curl", "getent", "id", "mount", "unshare"])
  const KDE := LinuxFactory("kde6", {DesktopProxy}, ["dbus-send", "kwriteconfig6", "runuser"])

  const PRODUCTION := [LAYOUT, ARCH, IDENTITY, SYSTEMD, NFTABLES, IPROUTE, TUN, NAMESPACES, KDE]

  function OnMachine(factories: seq<LinuxFactory>, m: Machine): seq<Factory> {
    seq(|factories|, i requires 0 <= i < |factories| => factories[i].On(m))
  }

  function Production(m: Machine): seq<Factory> {
    OnMachine(PRODUCTION, m)
  }

  method RegisterAll(registry: BackendRegistry, factories: seq<LinuxFactory>, m: Machine)
    modifies registry
    ensures registry.factories == old(registry.factories) + OnMachine(factories, m)
  {
    for i := 0 to |factories|
      invariant registry.factories == old(registry.factories) + OnMachine(factories, m)[..i]
    {
      registry.Register(factories[i].On(m));
    }
  }

  method RegisterProduction(registry: BackendRegistry, m: Machine)
    modifies registry
    ensures registry.factories == old(registry.factories) + Production(m)
  {
    RegisterAll(registry, PRODUCTION, m);
  }

  /** The commands `ArchPackageAdvisor` looks for. */
  const ADVISED := ["chown", "curl", "getent", "gpasswd", "groupadd", "id", "ip", "journalctl", "mount", "nft",
                    "systemctl", "unshare", "useradd", "usermod"]

  function PackageOf(program: string): string {
    match program
    case "chown" => "coreutils"
    case "getent" => "glibc"
    case "gpasswd" => "shadow"
    case "groupadd" => "shadow"
    case "useradd" => "shadow"
    case "usermod" => "shadow"
    case "ip" => "iproute2"
    case "mount" => "util-linux"
    case "unshare" => "util-linux"
    case "nft" => "nftables"
    case "journalctl" => "systemd"
    case "systemctl" => "systemd"
    case _ => program
  }

  /** The same table read the other way: what the packages bring. */
  lemma PackageBrings()
    ensures PackageOf("chown") == "coreutils" && PackageOf("getent") == "glibc" && PackageOf("curl") == "curl"
    ensures forall program ::
              program in ["gpasswd", "groupadd", "useradd", "usermod"] ==> PackageOf(program) == "shadow"
    ensures forall program :: program in ["mount", "unshare"] ==> PackageOf(program) == "util-linux"
    ensures forall program :: program in ["journalctl", "systemctl"] ==> PackageOf(program) == "systemd"
    ensures PackageOf("ip") == "iproute2" && PackageOf("nft") == "nftables"
  {
  }

  class ArchPackageAdvisor {
    constructor () {}

    method MissingRequirements(commands: set<string>) returns (missing: seq<string>)
      ensures missing == Select(ADVISED, Absent(commands))
    {
      missing := [];
      for i := 0 to |ADVISED|
        invariant missing == Select(ADVISED[..i], Absent(commands))
      {
        assert ADVISED[..i + 1] == ADVISED[..i] + [ADVISED[i]];
        SelectOfSnoc(ADVISED[..i], ADVISED[i], Absent(commands));
        if ADVISED[i] !in commands {
          missing := missing + [ADVISED[i]];
        }
      }
      assert ADVISED[..|ADVISED|] == ADVISED;
    }
  }

  function PackagesOf(programs: seq<string>): seq<string> {
    seq(|programs|, i requires 0 <= i < |programs| => PackageOf(programs[i]))
  }

  function Dedup(xs: seq<string>): seq<string> {
    if |xs| < 2 then xs else if xs[0] == xs[1] then Dedup(xs[1..]) else [xs[0]] + Dedup(xs[1..])
  }

  function PackagesFor(programs: seq<string>): seq<string> {
    Dedup(Sort(PackagesOf(programs), AtMost))
  }

  lemma {:induction false} DedupOfSorted(xs: seq<string>)
    requires SortedBy(xs, AtMost)
    ensures forall x :: x in Dedup(xs) <==> x in xs
    ensures xs != [] ==> Dedup(xs) != [] && Dedup(xs)[0] == xs[0]
    ensures forall i, j :: 0 <= i < j < |Dedup(xs)| ==> Below(Dedup(xs)[i], Dedup(xs)[j])
  {
    if |xs| >= 2 {
      StringsAreOrdered();
      var rest := xs[1..];
      DedupOfSorted(rest);
      assert xs == [xs[0]] + rest;
      if xs[0] != xs[1] {
        forall y | y in Dedup(rest)
          ensures Below(xs[0], y)
        {
          assert y in rest;
          BelowIsTotal(xs[0], xs[1]);
          BelowIsTotal(xs[0], y);
          assert AtMost(xs[1], y);
        }
      }
    }
  }

  /** The packages of a list of programs, each once and in order; none exactly when no program is asked for. */
  lemma PackagesAreExact(programs: seq<string>)
    ensures forall p :: p in PackagesFor(programs) <==> exists program :: program in programs && p == PackageOf(program)
    ensures forall i, j :: 0 <= i < j < |PackagesFor(programs)| ==>
            Below(PackagesFor(programs)[i], PackagesFor(programs)[j])
    ensures PackagesFor(programs) == [] <==> programs == []
  {
    var packages := PackagesOf(programs);
    var sorted := Sort(packages, AtMost);
    StringsAreOrdered();
    SortOrders(packages, AtMost);
    SortPermutes(packages, AtMost);
    SameMembers(packages, sorted);
    DedupOfSorted(sorted);
    assert |sorted| == |multiset(sorted)| == |packages|;
    forall p
      ensures p in PackagesFor(programs) <==> exists program :: program in programs && p == PackageOf(program)
    {
      assert p in PackagesFor(programs) <==> p in packages;
      if p in packages {
        var i :| 0 <= i < |packages| && packages[i] == p;
        assert programs[i] in programs;
      }
      if program :| program in programs && p == PackageOf(program) {
        var i :| 0 <= i < |programs| && programs[i] == program;
        assert packages[i] == p;
      }
    }
  }

  lemma HeadOfConcat(a: string, b: string)
    requires a != []
    ensures (a + b)[0] == a[0]
  {
  }

  lemma OtherReasons(f: LinuxFactory, m: Machine)
    requires f.ProbeOn(m).Success? && Select(f.requirements, Absent(m.commands)) == []
    ensures f.ProbeOn(m).value.reason.Some? ==>
            f.ProbeOn(m).value.reason.value != [] && f.ProbeOn(m).value.reason.value[0] != 'm'
  {
    assert "host is not Arch Linux or EndeavourOS"[0] == 'h';
    assert "systemd system manager"[0] == 's';
    assert "/dev/net/tun is unavailable"[0] == '/';
    if m.systemd.Success? {
      HeadOfConcat("systemd system manager", " is not running (state: " + StateName(m.systemd.value) + ")");
    }
  }

  /** A probe reason starts with "missing:" exactly when a required command is missing. */
  lemma MissingReason(f: LinuxFactory, m: Machine)
    requires f.ProbeOn(m).Success?
    ensures var probe := f.ProbeOn(m).value;
            (probe.reason.Some? && "missing:" <= probe.reason.value) <==>
            exists program :: program in f.requirements && program !in m.commands
    ensures (exists program :: program in f.requirements && program !in m.commands) ==> !f.ProbeOn(m).value.available
  {
    var missing := Select(f.requirements, Absent(m.commands));
    forall program
      ensures program in missing <==> program in f.requirements && program !in m.commands
    {
      SelectMembers(f.requirements, Absent(m.commands), program);
    }
    if missing != [] {
      assert missing[0] in missing;
      assert missing[0] in f.requirements && missing[0] !in m.commands;
      assert "missing:" <= "missing: " + Join(missing);
    } else {
      OtherReasons(f, m);
      assert "missing:"[0] == 'm';
    }
  }

  /** A probe finds a backend available, whatever it is that is probed. */
  predicate IsAvailable(f: LinuxFactory, m: Machine) {
    f.ProbeOn(m).Success? && f.ProbeOn(m).value.available
  }

  lemma AvailableIff(f: LinuxFactory, m: Machine)
    ensures IsAvailable(f, m) <==>
              && (forall program :: program in f.requirements ==> program in m.commands)
              && (f.id == "arch" ==> m.distribution == Some("arch") || m.distribution == Some("endeavouros"))
              && (f.id == "systemd" ==>
                    m.systemd.Success? && (m.systemd.value == "running" || m.systemd.value == "degraded"))
              && (f.id == "xray-linux-tun" ==> m.tunDevice)
  {
    var missing := Select(f.requirements, Absent(m.commands));
    forall program
      ensures program in missing <==> program in f.requirements && program !in m.commands
    {
      SelectMembers(f.requirements, Absent(m.commands), program);
    }
    assert missing != [] ==> missing[0] in missing;
    assert |"arch"| == 4 && |"systemd"| == 7 && |"xray-linux-tun"| == 14;
  }

  /** Every capability has exactly one production backend. */
  lemma OneProvider(c: Capability, f: LinuxFactory)
    requires f in PRODUCTION
    ensures c in f.capabilities <==>
            f.id == match c
                    case Layout => "linux-fhs"
                    case Install => "arch"
                    case PackageAdvice => "arch"
                    case Identity => "linux-identity"
                    case Service => "systemd"
                    case Firewall => "nftables"
                    case PolicyRouting => "iproute2"
                    case Tun => "xray-linux-tun"
                    case AppRunner => "linux-gid-mountns"
                    case MountIsolation => "linux-gid-mountns"
                    case DesktopProxy => "kde6"
  {
    assert |LAYOUT.id| == 9 && |ARCH.id| == 4 && |IDENTITY.id| == 14 && |NFTABLES.id| == 8 && |IPROUTE.id| == 8;
    assert |TUN.id| == 14 && |NAMESPACES.id| == 17 && |KDE.id| == 4 && |SYSTEMD.id| == 7;
    assert ARCH.id[0] == 'a' && KDE.id[0] == 'k' && IDENTITY.id[0] == 'l' && TUN.id[0] == 'x';
    assert NFTABLES.id[0] == 'n' && IPROUTE.id[0] == 'i';
  }

  /** What each production backend needs of the machine. */
  lemma ProductionNeeds(m: Machine)
    ensures IsAvailable(LAYOUT, m)
    ensures IsAvailable(ARCH, m) <==>
            "pacman" in m.commands && (m.distribution == Some("arch") || m.distribution == Some("endeavouros"))
    ensures IsAvailable(IDENTITY, m) <==>
            && "chown" in m.commands && "getent" in m.commands && "groupadd" in m.commands
            && "gpasswd" in m.commands && "id" in m.commands && "useradd" in m.commands && "usermod" in m.commands
    ensures IsAvailable(SYSTEMD, m) <==>
            && {"systemctl", "journalctl"} <= m.commands
            && m.systemd.Success? && (m.systemd.value == "running" || m.systemd.value == "degraded")
    ensures IsAvailable(NFTABLES, m) <==> "nft" in m.commands
    ensures IsAvailable(IPROUTE, m) <==> "ip" in m.commands
    ensures IsAvailable(TUN, m) <==> "ip" in m.commands && m.tunDevice
    ensures IsAvailable(NAMESPACES, m) <==>
            && "curl" in m.commands && "getent" in m.commands && "id" in m.commands
            && "mount" in m.commands && "unshare" in m.commands
    ensures IsAvailable(KDE, m) <==> {"dbus-send", "kwriteconfig6", "runuser"} <= m.commands
  {
    ToolsNeeded(m);
    NamedNeeds(m);
  }

  /** The backends that need commands and nothing else. */
  lemma ToolsNeeded(m: Machine)
    ensures IsAvailable(LAYOUT, m)
    ensures IsAvailable(IDENTITY, m) <==>
            && "chown" in m.commands && "getent" in m.commands && "groupadd" in m.commands
            && "gpasswd" in m.commands && "id" in m.commands && "useradd" in m.commands && "usermod" in m.commands
    ensures IsAvailable(NFTABLES, m) <==> "nft" in m.commands
    ensures IsAvailable(IPROUTE, m) <==> "ip" in m.commands
    ensures IsAvailable(NAMESPACES, m) <==>
            && "curl" in m.commands && "getent" in m.commands && "id" in m.commands
            && "mount" in m.commands && "unshare" in m.commands
    ensures IsAvailable(KDE, m) <==> {"dbus-send", "kwriteconfig6", "runuser"} <= m.commands
  {
    LayoutNeeds(m);
    IdentityNeeds(m);
    NetworkNeeds(m);
    NamespacesNeed(m);
    DesktopNeeds(m);
  }

  lemma LayoutNeeds(m: Machine)
    ensures IsAvailable(LAYOUT, m)
  {
    assert |LAYOUT.id| == 9 && |"arch"| == 4 && |"systemd"| == 7 && |"xray-linux-tun"| == 14;
    AvailableIff(LAYOUT, m);
  }

  lemma AllPresent(programs: seq<string>, commands: set<string>, n: nat)
    requires |programs| == n <= 7
    ensures (forall program :: program in programs ==> program in commands) <==>
            && (n > 0 ==> programs[0] in commands) && (n > 1 ==> programs[1] in commands)
            && (n > 2 ==> programs[2] in commands) && (n > 3 ==> programs[3] in commands)
            && (n > 4 ==> programs[4] in commands) && (n > 5 ==> programs[5] in commands)
            && (n > 6 ==> programs[6] in commands)
  {
  }

  lemma IdentityNeeds(m: Machine)
    ensures IsAvailable(IDENTITY, m) <==>
            && "chown" in m.commands && "getent" in m.commands && "groupadd" in m.commands
            && "gpasswd" in m.commands && "id" in m.commands && "useradd" in m.commands && "usermod" in m.commands
  {
    assert |IDENTITY.id| == 14 && |"arch"| == 4 && |"systemd"| == 7;
    assert IDENTITY.id[0] == 'l' && "xray-linux-tun"[0] == 'x';
    AvailableIff(IDENTITY, m);
    AllPresent(IDENTITY.requirements, m.commands, 7);
  }

  lemma NetworkNeeds(m: Machine)
    ensures IsAvailable(NFTABLES, m) <==> "nft" in m.commands
    ensures IsAvailable(IPROUTE, m) <==> "ip" in m.commands
  {
    assert |NFTABLES.id| == 8 && |IPROUTE.id| == 8 && |"arch"| == 4 && |"systemd"| == 7 && |"xray-linux-tun"| == 14;
    AvailableIff(NFTABLES, m);
    AvailableIff(IPROUTE, m);
  }

  lemma NamespacesNeed(m: Machine)
    ensures IsAvailable(NAMESPACES, m) <==>
            && "curl" in m.commands && "getent" in m.commands && "id" in m.commands
            && "mount" in m.commands && "unshare" in m.commands
  {
    assert |NAMESPACES.id| == 17 && |"arch"| == 4 && |"systemd"| == 7 && |"xray-linux-tun"| == 14;
    AvailableIff(NAMESPACES, m);
    AllPresent(NAMESPACES.requirements, m.commands, 5);
  }

  lemma DesktopNeeds(m: Machine)
    ensures IsAvailable(KDE, m) <==> {"dbus-send", "kwriteconfig6", "runuser"} <= m.commands
  {
    assert |KDE.id| == 4 && KDE.id[0] == 'k' && "arch"[0] == 'a' && |"systemd"| == 7 && |"xray-linux-tun"| == 14;
    AvailableIff(KDE, m);
  }

  lemma NamedNeeds(m: Machine)
    ensures IsAvailable(ARCH, m) <==>
            "pacman" in m.commands && (m.distribution == Some("arch") || m.distribution == Some("endeavouros"))
    ensures IsAvailable(SYSTEMD, m) <==>
            && {"systemctl", "journalctl"} <= m.commands
            && m.systemd.Success? && (m.systemd.value == "running" || m.systemd.value == "degraded")
    ensures IsAvailable(TUN, m) <==> "ip" in m.commands && m.tunDevice
  {
    assert |"arch"| == 4 && |"systemd"| == 7 && |"xray-linux-tun"| == 14;
    AvailableIff(ARCH, m);
    AvailableIff(SYSTEMD, m);
    AvailableIff(TUN, m);
  }

  lemma SystemdIsNamedOnce(f: LinuxFactory)
    requires f in PRODUCTION
    ensures f.id == "systemd" ==> f == SYSTEMD
  {
    assert |LAYOUT.id| == 9 && |ARCH.id| == 4 && |IDENTITY.id| == 14 && |NFTABLES.id| == 8 && |IPROUTE.id| == 8;
    assert |TUN.id| == 14 && |NAMESPACES.id| == 17 && |KDE.id| == 4;
    assert f.id == "systemd" ==> |f.id| == 7;
  }

  lemma ProductionIdsDiffer(i: nat, j: nat)
    requires i < j < |PRODUCTION|
    ensures PRODUCTION[i].id != PRODUCTION[j].id
  {
    assert |LAYOUT.id| == 9 && |ARCH.id| == 4 && |IDENTITY.id| == 14 && |NFTABLES.id| == 8 && |IPROUTE.id| == 8;
    assert |TUN.id| == 14 && |NAMESPACES.id| == 17 && |KDE.id| == 4 && |SYSTEMD.id| == 7;
    assert ARCH.id[0] == 'a' && KDE.id[0] == 'k' && IDENTITY.id[0] == 'l' && TUN.id[0] == 'x';
    assert NFTABLES.id[0] == 'n' && IPROUTE.id[0] == 'i';
  }

  lemma DistinctOn(m: Machine)
    ensures forall i, j :: 0 <= i < j < |Production(m)| ==>
            Production(m)[i].descriptor.id != Production(m)[j].descriptor.id
  {
    forall i, j | 0 <= i < j < |Production(m)|
      ensures Production(m)[i].descriptor.id != Production(m)[j].descriptor.id
    {
      ProductionIdsDiffer(i, j);
    }
  }

  lemma OnlySystemdProbeFails(m: Machine, f: Factory)
    requires f in Production(m)
    ensures f.probe.Failure? ==> f == SYSTEMD.On(m)
  {
    var i :| 0 <= i < |PRODUCTION| && f == PRODUCTION[i].On(m);
    SystemdIsNamedOnce(PRODUCTION[i]);
  }

  lemma SystemdIsRegistered(m: Machine)
    ensures SYSTEMD.On(m) in Production(m)
  {
    assert Production(m)[3] == SYSTEMD.On(m);
  }

  /**
   Resolution over the production registry never reports a duplicate id; only asking systemd for
   its state can fail.
   */
  lemma ProductionIsRegistrable(m: Machine)
    ensures Collect(Production(m)).Success? <==> SYSTEMD.ProbeOn(m).Success?
  {
    var fs := Production(m);
    CollectIff(fs);
    DistinctOn(m);
    SystemdIsRegistered(m);
    forall f | f in fs
      ensures f.probe.Failure? ==> f == SYSTEMD.On(m)
    {
      OnlySystemdProbeFails(m, f);
    }
  }

  /** The adapters `create` knows how to build. */
  predicate Creates(id: string, c: Capability) {
    match c
    case Layout => id == "linux-fhs"
    case Install => id == "arch"
    case PackageAdvice => id == "arch"
    case Identity => id == "linux-identity"
    case Service => id == "systemd"
    case Firewall => id == "nftables"
    case PolicyRouting => id == "iproute2"
    case Tun => id == "xray-linux-tun"
    case AppRunner => id == "linux-gid-mountns"
    case MountIsolation => id == "linux-gid-mountns"
    case DesktopProxy => id == "kde6"
  }

  datatype Component = Component(id: string, capability: Capability)

  /** `create`: only the installer can still refuse, when its HTTP client cannot be built. */
  predicate Builds(factories: seq<Factory>, s: Selection, httpBuilds: bool) {
    && (exists f :: f in factories && f.descriptor.id == s.backendId)
    && Creates(s.backendId, s.capability)
    && (s.capability == Install ==> httpBuilds)
  }

  /** One component for each selection, in order; the first selection that cannot be built fails. */
  function Instantiate(factories: seq<Factory>, selections: seq<Selection>, httpBuilds: bool)
    : Result<seq<Component>, Selection>
  {
    if selections == [] then Success([])
    else
      var s := selections[0];
      if !Builds(factories, s, httpBuilds) then Failure(s)
      else
        var rest := Instantiate(factories, selections[1..], httpBuilds);
        if rest.Failure? then rest else Success([Component(s.backendId, s.capability)] + rest.value)
  }

  /** What the factories declare, `create` provides. */
  ghost predicate Buildable(factories: seq<LinuxFactory>) {
    forall f, c :: f in factories && c in f.capabilities ==> Creates(f.id, c)
  }

  lemma ProductionIsBuildable()
    ensures Buildable(PRODUCTION)
  {
  }

  lemma {:induction false} Instantiates(factories: seq<Factory>, selections: seq<Selection>, httpBuilds: bool)
    ensures var components := Instantiate(factories, selections, httpBuilds);
            && (components.Success? <==> forall s :: s in selections ==> Builds(factories, s, httpBuilds))
            && (components.Success? ==>
                  && |components.value| == |selections|
                  && forall i :: 0 <= i < |selections| ==>
                       components.value[i] == Component(selections[i].backendId, selections[i].capability))
  {
    if selections != [] {
      assert selections[0] in selections;
      assert selections == [selections[0]] + selections[1..];
      Instantiates(factories, selections[1..], httpBuilds);
    }
  }

  /** What is filed under an id is one of the factories with the answer of its probe. */
  lemma ProbedBackend(factories: seq<LinuxFactory>, m: Machine, id: string) returns (f: LinuxFactory)
    requires Collect(OnMachine(factories, m)).Success? && id in Collect(OnMachine(factories, m)).value
    ensures f in factories && f.id == id && f.ProbeOn(m).Success? && f.On(m) in OnMachine(factories, m)
    ensures Collect(OnMachine(factories, m)).value[id] == Backend(f.Describe(), f.ProbeOn(m).value)
  {
    var fs := OnMachine(factories, m);
    CollectIff(fs);
    var g :| g in fs && g.descriptor.id == id;
    var j :| 0 <= j < |factories| && g == factories[j].On(m);
    f := factories[j];
  }

  lemma SelectedIsCreated(factories: seq<LinuxFactory>, m: Machine, s: Selection)
    requires Buildable(factories) && Collect(OnMachine(factories, m)).Success?
    requires var available := Collect(OnMachine(factories, m)).value;
             s.backendId in available && s.capability in available[s.backendId].descriptor.capabilities
    ensures Builds(OnMachine(factories, m), s, s.capability == Install)
  {
    var f := ProbedBackend(factories, m, s.backendId);
    assert f.On(m).descriptor.id == s.backendId;
  }

  /**
   What a buildable registry resolves is built, one component for each selection, unless the
   installer is selected and refuses.
   */
  lemma ResolvedIsInstantiable(factories: seq<LinuxFactory>, m: Machine, preferences: Preferences,
                               order: seq<Capability>,
                               httpBuilds: bool)
    requires Buildable(factories) && ResolveSpec(OnMachine(factories, m), preferences, order).Success?
    ensures var selections := ResolveSpec(OnMachine(factories, m), preferences, order).value.selections;
            Instantiate(OnMachine(factories, m), selections, httpBuilds).Success? <==>
            httpBuilds || forall s :: s in selections ==> s.capability != Install
  {
    var available := Collect(OnMachine(factories, m)).value;
    var selections := ResolveAll(available, preferences, order).value.selections;
    SelectionsAreSound(available, preferences, order);
    forall s | s in selections
      ensures Builds(OnMachine(factories, m), s, httpBuilds) <==> httpBuilds || s.capability != Install
    {
      SelectedIsCreated(factories, m, s);
    }
    Instantiates(OnMachine(factories, m), selections, httpBuilds);
  }
}

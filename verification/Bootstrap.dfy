/**
 The gate in front of every privileged operation: required capabilities, the
 bootstrap exception, package requirements, privilege and lock.
 */
module Bootstrap {
  import opened Prelude
  import opened Sorting
  import opened Registry
  import opened LinuxBackends

  datatype Operation =
    | Install(user: Option<string>)
    | Repair
    | Uninstall
    | Purge
    | UpgradeAll
    | UpgradeCore
    | UpgradeAssets
    | UpgradeManager
    | Apply
    | ConfigRollback
    | CoreRollback
    | AssetRollback
    | TunEnable
    | TunDisable
    | TunCleanup

  datatype Options = Options(dryRun: bool, assumeYes: bool)

  datatype PlanAction =
    | RequirePackages(packages: seq<string>)
    | AddIdentityToGroup(identity: string)
    | Other(text: string)

  datatype Refusal =
    | TunIsDisabled
    | NoReleaseSource
    | Unconfirmed
    | Unsupported(capability: Capability)
    | PlanFailed
    | InvalidName
    | PrivilegeUnknown
    | PrivilegeRequired
    | PackagesMissing(packages: seq<string>)
    | LockFailed

  /** What the rest of the system answers while one operation runs; `commands` is PATH when the advisor looks. */
  datatype World = World(plan: Option<seq<PlanAction>>, commands: set<string>, elevated: Option<bool>, lockFree: bool)

  /** `Reached`: the operation itself starts, with these actions. `Previewed`: a dry run stops here. */
  datatype Outcome = Reached(actions: seq<PlanAction>) | Previewed(actions: seq<PlanAction>) | Refused(why: Refusal)

  predicate Bootstraps(op: Operation) {
    op.Install? || op.Repair?
  }

  function BaseCapabilities(op: Operation): set<Capability> {
    match op
    case Install(_) => {Capability.Install, PackageAdvice, Identity, Service, Firewall, PolicyRouting, Tun}
    case Repair => {Capability.Install, PackageAdvice, Identity, Service, Firewall, PolicyRouting, Tun}
    case Uninstall => {}
    case Purge => {}
    case UpgradeAll => {Capability.Install, Service}
    case UpgradeCore => {Capability.Install, Service}
    case UpgradeAssets => {Capability.Install, Service}
    case UpgradeManager => {Capability.Install}
    case Apply => {Capability.Install, Identity, Service}
    case ConfigRollback => {Capability.Install, Identity, Service}
    case CoreRollback => {Capability.Install, Identity, Service}
    case AssetRollback => {Capability.Install, Identity, Service}
    case TunEnable => {Firewall, PolicyRouting, Service, Tun}
    case TunDisable => {Firewall, PolicyRouting, Service, Tun}
    case TunCleanup => {Firewall, PolicyRouting, Service, Tun}
  }

  /** TUN support is demanded of a configuration that uses it and not demanded of an installation that does not. */
  function Required(op: Operation, tunEnabled: bool): set<Capability> {
    var routing := {Firewall, PolicyRouting, Tun};
    if tunEnabled && (op.Apply? || op.ConfigRollback?) then BaseCapabilities(op) + routing
    else if !tunEnabled && Bootstraps(op) then BaseCapabilities(op) - routing
    else BaseCapabilities(op)
  }

  /** The same table read the other way: which operations ask for a capability. */
  lemma RequiredBy(op: Operation, tunEnabled: bool)
    ensures Service in Required(op, tunEnabled) <==>
            !op.Uninstall? && !op.Purge? && !op.UpgradeManager?
    ensures Capability.Install in Required(op, tunEnabled) <==>
            !op.Uninstall? && !op.Purge? && !op.TunEnable? && !op.TunDisable? && !op.TunCleanup?
    ensures Identity in Required(op, tunEnabled) <==>
            Bootstraps(op) || op.Apply? || op.ConfigRollback? || op.CoreRollback? || op.AssetRollback?
    ensures PackageAdvice in Required(op, tunEnabled) <==> op.Install? || op.Repair?
    ensures forall c :: c in {Firewall, PolicyRouting, Tun} ==>
              (c in Required(op, tunEnabled) <==>
               || op.TunEnable? || op.TunDisable? || op.TunCleanup?
               || (tunEnabled && (op.Install? || op.Repair? || op.Apply? || op.ConfigRollback?)))
    ensures forall c :: c in Required(op, tunEnabled) ==>
              c in {Service, Capability.Install, Identity, PackageAdvice, Firewall, PolicyRouting, Tun}
  {
  }

  predicate Supported(r: Resolution, c: Capability) {
    var status := StatusFor(r.statuses, c);
    status.Some? && status.value.supported
  }

  /** Unsupported for want of a command. */
  predicate ShortOfCommands(r: Resolution, c: Capability) {
    var status := StatusFor(r.statuses, c);
    && status.Some? && !status.value.supported && status.value.backendId.Some?
    && status.value.reason.Some? && "missing:" <= status.value.reason.value
  }

  /** `bootstrap_can_restore`: an unsupported capability that installing packages would bring back. */
  predicate CanRestore(r: Resolution, op: Operation, c: Capability) {
    var selection := SelectionFor(r.selections, c);
    && Bootstraps(op) && c != Capability.Install && c != PackageAdvice && ShortOfCommands(r, c)
    && selection.Some? && (selection.value.source == Automatic || selection.value.source == InstalledState)
  }

  ghost predicate Admits(r: Resolution, op: Operation, required: set<Capability>) {
    forall c :: c in required ==> Supported(r, c) || CanRestore(r, op, c)
  }

  /** Namespace tools are optional, and so are the routing tools of a host without TUN support. */
  predicate IsNeeded(program: string, tunEnabled: bool) {
    program != "mount" && program != "unshare" && (tunEnabled || (program != "ip" && program != "nft"))
  }

  function Needed(tunEnabled: bool): string -> bool {
    program => IsNeeded(program, tunEnabled)
  }

  /** What the advisor still finds missing once optional tools are dropped. */
  function Leftover(advised: seq<string>, tunEnabled: bool, commands: set<string>): seq<string> {
    Select(Select(advised, Absent(commands)), Needed(tunEnabled))
  }

  /** What is still asked for, program by program. */
  lemma LeftoverExactly(advised: seq<string>, tunEnabled: bool, commands: set<string>, program: string)
    ensures program in Leftover(advised, tunEnabled, commands) <==>
            && program in advised && program !in commands
            && program != "mount" && program != "unshare"
            && (!tunEnabled ==> program != "ip" && program != "nft")
  {
    SelectMembers(advised, Absent(commands), program);
    SelectMembers(Select(advised, Absent(commands)), Needed(tunEnabled), program);
  }

  function FirstDemand(actions: seq<PlanAction>): Option<seq<string>> {
    if actions == [] then None
    else if actions[0].RequirePackages? then Some(actions[0].packages)
    else FirstDemand(actions[1..])
  }

  /** The part of the gate that depends on what was resolved and on what is installed. */
  ghost predicate Open(r: Resolution, op: Operation, advised: seq<string>, tunEnabled: bool, commands: set<string>) {
    && Admits(r, op, Required(op, tunEnabled))
    && (Bootstraps(op) && SelectionFor(r.selections, PackageAdvice).Some? ==>
          Leftover(advised, tunEnabled, commands) == [])
  }

  /** The part that depends on the caller and on everything else. */
  ghost predicate Clear(op: Operation, options: Options, tunEnabled: bool, releaseSource: bool, world: World) {
    && (op.TunEnable? ==> tunEnabled)
    && (op.UpgradeManager? ==> releaseSource)
    && (op.Purge? ==> options.assumeYes)
    && (op.Install? && op.user.Some? ==> ValidResourceName(op.user.value))
    && world.plan.Some? && FirstDemand(world.plan.value).None?
    && world.elevated == Some(true) && world.lockFree
  }

  /** `ManagerService` as far as planning and admission go. */
  class OperationGate {
    const resolution: Resolution
    const tunEnabled: bool
    const releaseSource: bool
    const advisor: ArchPackageAdvisor?

    /** The advisor is the component built for it, or a stub that reports the platform as unsupported. */
    constructor (resolution: Resolution, components: seq<Component>, tunEnabled: bool, releaseSource: bool)
      ensures this.resolution == resolution && this.tunEnabled == tunEnabled && this.releaseSource == releaseSource
      ensures advisor != null <==> exists component :: component in components && component.capability == PackageAdvice
    {
      this.resolution, this.tunEnabled, this.releaseSource := resolution, tunEnabled, releaseSource;
      if exists component :: component in components && component.capability == PackageAdvice {
        this.advisor := new ArchPackageAdvisor();
      } else {
        this.advisor := null;
      }
    }

    method AddPlatformRequirements(plan: seq<PlanAction>, commands: set<string>) returns (extended: seq<PlanAction>)
      ensures extended == WithDemand(advisor != null, Leftover(ADVISED, tunEnabled, commands), plan)
    {
      if advisor == null {
        return plan;
      }
      var missing := advisor.MissingRequirements(commands);
      missing := Select(missing, Needed(tunEnabled));
      PackagesAreExact(missing);
      var packages := PackagesFor(missing);
      extended := if packages != [] then [RequirePackages(packages)] + plan else plan;
    }

    /** The first required capability, in order, that is neither supported nor excused. */
    method CheckCapabilities(op: Operation, required: set<Capability>) returns (refusal: Option<Refusal>)
      ensures refusal.None? <==> Admits(resolution, op, required)
      ensures refusal.Some? ==>
                refusal.value.Unsupported? && refusal.value.capability in required
                  && !Supported(resolution, refusal.value.capability)
    {
      var order := InOrder(required);
      forall c
        ensures c in order <==> c in required
      {
        InOrderIsComplete(required, c);
      }
      refusal := FirstUnsupported(op, order);
    }

    method FirstUnsupported(op: Operation, order: seq<Capability>) returns (refusal: Option<Refusal>)
      ensures refusal.None? <==> forall c :: c in order ==> Supported(resolution, c) || CanRestore(resolution, op, c)
      ensures refusal.Some? ==>
                refusal.value.Unsupported? && refusal.value.capability in order
                  && !Supported(resolution, refusal.value.capability)
    {
      for i := 0 to |order|
        invariant forall j :: 0 <= j < i ==> Supported(resolution, order[j]) || CanRestore(resolution, op, order[j])
      {
        if !CanRestore(resolution, op, order[i]) && !Supported(resolution, order[i]) {
          return Some(Unsupported(order[i]));
        }
      }
      return None;
    }

    /** The demand for packages, the platform's plan, and the group of the user who installs. */
    ghost function PlanFor(op: Operation, plan: seq<PlanAction>, commands: set<string>): seq<PlanAction> {
      PlanWith(op, advisor != null, Leftover(ADVISED, tunEnabled, commands), plan)
    }

    /** The first package demand of the plan is the advisor's. */
    lemma PlanDemand(op: Operation, plan: seq<PlanAction>, commands: set<string>)
      ensures FirstDemand(PlanFor(op, plan, commands)) ==
              if Bootstraps(op) && advisor != null && Leftover(ADVISED, tunEnabled, commands) != [] then
                Some(PackagesFor(Leftover(ADVISED, tunEnabled, commands)))
              else FirstDemand(plan)
    {
      DemandOfPlan(op, advisor != null, Leftover(ADVISED, tunEnabled, commands), plan);
    }

    method PlanInternal(op: Operation, enforce: bool, world: World) returns (r: Result<seq<PlanAction>, Refusal>)
      ensures r.Success? <==>
                && (op.TunEnable? ==> tunEnabled) && world.plan.Some?
                && (enforce ==> Admits(resolution, op, Required(op, tunEnabled)))
                && (op.Install? && op.user.Some? ==> ValidResourceName(op.user.value))
      ensures r.Success? ==> world.plan.Some? && r.value == PlanFor(op, world.plan.value, world.commands)
      ensures r.Failure? ==> !r.at.PackagesMissing?
      ensures r.Failure? && r.at.Unsupported? ==>
              !Supported(resolution, r.at.capability) && r.at.capability in Required(op, tunEnabled)
    {
      var refusal := CheckPlan(op, enforce, world);
      if refusal.Some? {
        return Failure(refusal.value);
      }
      r := ExtendPlan(op, world.plan.value, world.commands);
    }

    /** What can be refused before anything is planned. */
    method CheckPlan(op: Operation, enforce: bool, world: World) returns (refusal: Option<Refusal>)
      ensures refusal.None? <==>
                && (op.TunEnable? ==> tunEnabled) && world.plan.Some?
                && (enforce ==> Admits(resolution, op, Required(op, tunEnabled)))
      ensures refusal.Some? ==> !refusal.value.PackagesMissing?
      ensures refusal.Some? && refusal.value.Unsupported? ==>
                !Supported(resolution, refusal.value.capability) &&
                refusal.value.capability in Required(op, tunEnabled)
    {
      if op.TunEnable? && !tunEnabled {
        return Some(TunIsDisabled);
      }
      if enforce {
        refusal := CheckCapabilities(op, Required(op, tunEnabled));
        if refusal.Some? { return; }
      }
      return if world.plan.None? then Some(PlanFailed) else None;
    }

    /** What the manager adds to the plan of the platform. */
    method ExtendPlan(op: Operation, platform: seq<PlanAction>, commands: set<string>)
      returns (r: Result<seq<PlanAction>, Refusal>)
      ensures r.Success? <==> (op.Install? && op.user.Some? ==> ValidResourceName(op.user.value))
      ensures r.Failure? ==> r.at == InvalidName
      ensures r.Success? ==> r.value == PlanFor(op, platform, commands)
    {
      if op.Install? && op.user.Some? && !ValidResourceName(op.user.value) {
        return Failure(InvalidName);
      }
      var plan := platform;
      if Bootstraps(op) {
        plan := AddPlatformRequirements(platform, commands);
      }
      if op.Install? && op.user.Some? {
        plan := plan + [AddIdentityToGroup(op.user.value)];
      }
      return Success(plan);
    }

    /** The operation starts exactly when both halves of the gate are open and it is not a dry run. */
    method Execute(op: Operation, options: Options, world: World) returns (outcome: Outcome)
      requires advisor != null <==> SelectionFor(resolution.selections, PackageAdvice).Some?
      ensures outcome.Reached? <==>
                && !options.dryRun && Clear(op, options, tunEnabled, releaseSource, world)
                && Open(resolution, op, ADVISED, tunEnabled, world.commands)
      ensures outcome.Refused? && outcome.why.PackagesMissing? && world.plan.Some?
              && FirstDemand(world.plan.value).None? ==>
                && Bootstraps(op) && Leftover(ADVISED, tunEnabled, world.commands) != []
                && outcome.why.packages == PackagesFor(Leftover(ADVISED, tunEnabled, world.commands))
      ensures outcome.Refused? && outcome.why.Unsupported? ==>
                !Supported(resolution, outcome.why.capability) && outcome.why.capability in Required(op, tunEnabled)
      ensures outcome.Previewed? <==>
                && options.dryRun
                && (op.TunEnable? ==> tunEnabled) && (op.UpgradeManager? ==> releaseSource) && world.plan.Some?
                && (op.Install? && op.user.Some? ==> ValidResourceName(op.user.value))
      ensures outcome.Reached? || outcome.Previewed? ==>
                world.plan.Some? && outcome.actions == PlanFor(op, world.plan.value, world.commands)
    {
      if op.UpgradeManager? && !releaseSource {
        return Refused(NoReleaseSource);
      }
      if op.Purge? && !options.dryRun && !options.assumeYes {
        return Refused(Unconfirmed);
      }
      outcome := Admit(op, options.dryRun, world);
    }

    /** What can be planned is previewed in a dry run, and otherwise started if nothing is in its way. */
    method Admit(op: Operation, dryRun: bool, world: World) returns (outcome: Outcome)
      requires advisor != null <==> SelectionFor(resolution.selections, PackageAdvice).Some?
      ensures outcome.Reached? ==>
                && !dryRun && world.plan.Some? && FirstDemand(world.plan.value).None?
                && Open(resolution, op, ADVISED, tunEnabled, world.commands)
                && world.elevated == Some(true) && world.lockFree
                && (op.TunEnable? ==> tunEnabled) && (op.Install? && op.user.Some? ==> ValidResourceName(op.user.value))
      ensures (&& !dryRun && world.plan.Some? && FirstDemand(world.plan.value).None?
               && Open(resolution, op, ADVISED, tunEnabled, world.commands)
               && world.elevated == Some(true) && world.lockFree && (op.TunEnable? ==> tunEnabled)
               && (op.Install? && op.user.Some? ==> ValidResourceName(op.user.value))) ==> outcome.Reached?
      ensures outcome.Refused? && outcome.why.PackagesMissing? && world.plan.Some?
              && FirstDemand(world.plan.value).None? ==>
                && Bootstraps(op) && Leftover(ADVISED, tunEnabled, world.commands) != []
                && outcome.why.packages == PackagesFor(Leftover(ADVISED, tunEnabled, world.commands))
      ensures outcome.Refused? && outcome.why.Unsupported? ==>
                !Supported(resolution, outcome.why.capability) && outcome.why.capability in Required(op, tunEnabled)
      ensures outcome.Previewed? <==>
                && dryRun && (op.TunEnable? ==> tunEnabled) && world.plan.Some?
                && (op.Install? && op.user.Some? ==> ValidResourceName(op.user.value))
      ensures outcome.Reached? || outcome.Previewed? ==>
                world.plan.Some? && outcome.actions == PlanFor(op, world.plan.value, world.commands)
    {
      var plan := PlanInternal(op, !dryRun, world);
      if plan.Failure? {
        return Refused(plan.at);
      }
      if dryRun {
        return Previewed(plan.value);
      }
      PlanDemand(op, world.plan.value, world.commands);
      outcome := Start(plan.value, world);
    }

    /** Privilege, packages and the lock, in this order. */
    method Start(plan: seq<PlanAction>, world: World) returns (outcome: Outcome)
      ensures outcome.Reached? <==> world.elevated == Some(true) && FirstDemand(plan).None? && world.lockFree
      ensures outcome.Reached? ==> outcome.actions == plan
      ensures !outcome.Reached? ==> outcome.Refused? && !outcome.why.Unsupported?
      ensures outcome.Refused? && outcome.why.PackagesMissing? ==> FirstDemand(plan) == Some(outcome.why.packages)
    {
      if world.elevated.None? {
        return Refused(PrivilegeUnknown);
      }
      if !world.elevated.value {
        return Refused(PrivilegeRequired);
      }
      var demand := FirstDemand(plan);
      if demand.Some? {
        return Refused(PackagesMissing(demand.value));
      }
      if !world.lockFree {
        return Refused(LockFailed);
      }
      return Reached(plan);
    }
  }

  function PlanWith(op: Operation, advised: bool, missing: seq<string>, plan: seq<PlanAction>): seq<PlanAction> {
    var demanding := if op.Install? || op.Repair? then WithDemand(advised, missing, plan) else plan;
    if op.Install? && op.user.Some? then demanding + [AddIdentityToGroup(op.user.value)] else demanding
  }

  function WithDemand(advised: bool, missing: seq<string>, plan: seq<PlanAction>): seq<PlanAction> {
    if advised && missing != [] then [RequirePackages(PackagesFor(missing))] + plan else plan
  }

  /** The first demand of a plan is the one put in front of it. */
  lemma DemandOfPlan(op: Operation, advised: bool, missing: seq<string>, plan: seq<PlanAction>)
    ensures FirstDemand(PlanWith(op, advised, missing, plan)) ==
            if Bootstraps(op) && advised && missing != [] then Some(PackagesFor(missing)) else FirstDemand(plan)
  {
    var whole := PlanWith(op, advised, missing, plan);
    if Bootstraps(op) && advised && missing != [] {
      assert whole[0] == RequirePackages(PackagesFor(missing));
    } else if op.Install? && op.user.Some? {
      DemandOfSnoc(plan, AddIdentityToGroup(op.user.value));
    }
  }

  lemma {:induction false} DemandOfSnoc(plan: seq<PlanAction>, action: PlanAction)
    requires !action.RequirePackages?
    ensures FirstDemand(plan + [action]) == FirstDemand(plan)
  {
    if plan == [] {
      assert [] + [action] == [action];
    } else {
      assert (plan + [action])[1..] == plan[1..] + [action];
      DemandOfSnoc(plan[1..], action);
    }
  }

  const EVERYTHING: set<Capability> := set c | c in ALL_CAPABILITIES

  /** The composition resolves every capability against the production registry. */
  ghost function Composed(m: Machine, preferences: Preferences): Result<Resolution, ResolveError> {
    ResolveSpec(Production(m), preferences, InOrder(EVERYTHING))
  }

  /** The factory behind an unsupported capability: some of its commands were missing when it was probed. */
  ghost predicate LackedCommands(factories: seq<LinuxFactory>, m: Machine, f: LinuxFactory, c: Capability) {
    f in factories && c in f.capabilities && exists program :: program in f.requirements && program !in m.commands
  }

  /**
   A resolution that reports missing commands only where the probes found some, and that selects
   the advisor it supports.
   */
  ghost predicate Faithful(factories: seq<LinuxFactory>, m: Machine, r: Resolution) {
    && (forall c :: ShortOfCommands(r, c) ==> exists f :: LackedCommands(factories, m, f, c))
    && (Supported(r, PackageAdvice) ==> SelectionFor(r.selections, PackageAdvice).Some?)
  }

  lemma ShortMeansMissing(factories: seq<LinuxFactory>, m: Machine, preferences: Preferences, required: seq<Capability>,
                          r: Resolution, c: Capability)
    requires Collect(OnMachine(factories, m)).Success?
    requires ResolveAll(Collect(OnMachine(factories, m)).value, preferences, required) == Success(r)
    requires ShortOfCommands(r, c)
    ensures exists f :: LackedCommands(factories, m, f, c)
  {
    FoundStatusIsSound(Collect(OnMachine(factories, m)).value, preferences, required, c);
    var status := StatusFor(r.statuses, c).value;
    var f := ProbedBackend(factories, m, status.backendId.value);
    MissingReason(f, m);
    assert LackedCommands(factories, m, f, c);
  }

  /** Whatever the registered factories, a resolution over them is faithful. */
  lemma ResolutionIsFaithful(factories: seq<LinuxFactory>, m: Machine, preferences: Preferences,
                             order: seq<Capability>, r: Resolution)
    requires ResolveSpec(OnMachine(factories, m), preferences, order) == Success(r)
    ensures Faithful(factories, m, r)
  {
    FoundStatusIsSound(Collect(OnMachine(factories, m)).value, preferences, order, PackageAdvice);
    forall c | ShortOfCommands(r, c)
      ensures exists f :: LackedCommands(factories, m, f, c)
    {
      ShortMeansMissing(factories, m, preferences, order, r, c);
    }
  }

  /** The capabilities an installation can be excused for, and that TUN support decides about. */
  predicate Excusable(c: Capability, tunEnabled: bool) {
    c == Identity || c == Service || (tunEnabled && (c == Firewall || c == PolicyRouting || c == Tun))
  }

  /** Whatever can make an excusable capability miss a command is on the advisor's list and kept by the filter. */
  ghost predicate Knows(advised: seq<string>, f: LinuxFactory) {
    forall c, tunEnabled, program :: c in f.capabilities && Excusable(c, tunEnabled) && program in f.requirements ==>
                                       program in advised && IsNeeded(program, tunEnabled)
  }

  ghost predicate Covers(advised: seq<string>, factories: seq<LinuxFactory>) {
    forall f :: f in factories ==> Knows(advised, f)
  }

  lemma IdentityIsKnown()
    ensures Knows(ADVISED, IDENTITY)
  {
    var a := ADVISED;
    assert a[0] == "chown" && a[2] == "getent" && a[3] == "gpasswd" && a[4] == "groupadd" && a[5] == "id";
    assert a[12] == "useradd" && a[13] == "usermod";
  }

  lemma SystemdIsKnown()
    ensures Knows(ADVISED, SYSTEMD)
  {
    var a := ADVISED;
    assert a[7] == "journalctl" && a[10] == "systemctl";
  }

  lemma RoutingIsKnown()
    ensures Knows(ADVISED, NFTABLES) && Knows(ADVISED, IPROUTE) && Knows(ADVISED, TUN)
  {
    var a := ADVISED;
    assert a[6] == "ip" && a[9] == "nft";
  }

  lemma UninvolvedIsKnown(advised: seq<string>, f: LinuxFactory)
    requires f.capabilities !! {Identity, Service, Firewall, PolicyRouting, Tun}
    ensures Knows(advised, f)
  {
  }

  /** The advisor covers the production factories. */
  lemma ProductionIsCovered()
    ensures Covers(ADVISED, PRODUCTION)
  {
    IdentityIsKnown();
    SystemdIsKnown();
    RoutingIsKnown();
    UninvolvedIsKnown(ADVISED, LAYOUT);
    UninvolvedIsKnown(ADVISED, ARCH);
    UninvolvedIsKnown(ADVISED, NAMESPACES);
    UninvolvedIsKnown(ADVISED, KDE);
  }

  lemma NothingLeftOver(advised: seq<string>, tunEnabled: bool, commands: set<string>, program: string)
    requires Leftover(advised, tunEnabled, commands) == [] && program in advised && IsNeeded(program, tunEnabled)
    ensures program in commands
  {
    SelectMembers(Select(advised, Absent(commands)), Needed(tunEnabled), program);
    SelectMembers(advised, Absent(commands), program);
  }

  lemma BootstrapRequires(op: Operation, tunEnabled: bool, c: Capability)
    requires Bootstraps(op)
    ensures PackageAdvice in Required(op, tunEnabled)
    ensures c in Required(op, tunEnabled) && c != Capability.Install && c != PackageAdvice ==> Excusable(c, tunEnabled)
  {
  }

  /** The factory behind a capability was short of commands when probed, and has all of them now. */
  ghost predicate RecoveredSince(factories: seq<LinuxFactory>, m: Machine, now: set<string>, c: Capability) {
    exists f :: LackedCommands(factories, m, f, c) && forall program :: program in f.requirements ==> program in now
  }

  lemma RequirementsPresent(factories: seq<LinuxFactory>, advised: seq<string>, m: Machine, c: Capability,
                            tunEnabled: bool, now: set<string>)
    requires Covers(advised, factories) && Excusable(c, tunEnabled) && Leftover(advised, tunEnabled, now) == []
    requires exists f :: LackedCommands(factories, m, f, c)
    ensures RecoveredSince(factories, m, now, c)
  {
    var f :| LackedCommands(factories, m, f, c);
    assert Knows(advised, f);
    forall program | program in f.requirements
      ensures program in now
    {
      NothingLeftOver(advised, tunEnabled, now, program);
    }
  }

  /**
   What an open gate means for one required capability, whatever changed on PATH
   since the probes ran: it was reported supported, or its backend was only short
   of commands when probed and every command it needs is there now.
   */
  lemma OpenMeansReady(factories: seq<LinuxFactory>, advised: seq<string>, m: Machine, r: Resolution, op: Operation,
                       tunEnabled: bool, now: set<string>, c: Capability)
    requires Covers(advised, factories) && Faithful(factories, m, r)
    requires Open(r, op, advised, tunEnabled, now) && c in Required(op, tunEnabled)
    ensures Supported(r, c) || (Bootstraps(op) && RecoveredSince(factories, m, now, c))
  {
    if !Supported(r, c) {
      BootstrapRequires(op, tunEnabled, c);
      assert Supported(r, PackageAdvice);
      RequirementsPresent(factories, advised, m, c, tunEnabled, now);
    }
  }

  /**
   While no command appears, the bootstrap exception excuses nothing: the gate opens exactly on a
   fully supported host.
   */
  lemma GateIsExact(factories: seq<LinuxFactory>, advised: seq<string>, m: Machine, r: Resolution, op: Operation,
                    tunEnabled: bool, now: set<string>)
    requires Covers(advised, factories) && Faithful(factories, m, r) && now <= m.commands
    ensures Open(r, op, advised, tunEnabled, now) <==>
              && (forall c :: c in Required(op, tunEnabled) ==> Supported(r, c))
              && (Bootstraps(op) ==> Leftover(advised, tunEnabled, now) == [])
  {
    if Open(r, op, advised, tunEnabled, now) {
      forall c | c in Required(op, tunEnabled)
        ensures Supported(r, c)
      {
        OpenMeansReady(factories, advised, m, r, op, tunEnabled, now, c);
      }
      if Bootstraps(op) {
        BootstrapRequires(op, tunEnabled, PackageAdvice);
      }
    }
  }

  /** The choice names a factory that provides the capability and, unless it was installed, is available. */
  ghost predicate Honoured(factories: seq<LinuxFactory>, m: Machine, source: Source, id: string, c: Capability) {
    exists f :: f in factories && f.id == id && c in f.capabilities &&
                (source == InstalledState || (f.ProbeOn(m).Success? && f.ProbeOn(m).value.available))
  }

  /** Some explicit choice cannot be honoured on this machine. */
  ghost predicate ChoiceRefused(factories: seq<LinuxFactory>, m: Machine, preferences: Preferences) {
    exists c :: ChoiceRefusedFor(factories, m, preferences, c)
  }

  ghost predicate ChoiceRefusedFor(factories: seq<LinuxFactory>, m: Machine, preferences: Preferences, c: Capability) {
    exists source, id :: Decides(preferences, c, source, id) && source != Automatic &&
                         !Honoured(factories, m, source, id, c)
  }

  lemma ExplicitFailsIff(factories: seq<LinuxFactory>, m: Machine, preferences: Preferences, c: Capability)
    requires Collect(OnMachine(factories, m)).Success?
    ensures ExplicitFails(Collect(OnMachine(factories, m)).value, preferences, c) <==>
            ChoiceRefusedFor(factories, m, preferences, c)
  {
    var available := Collect(OnMachine(factories, m)).value;
    forall source, id | Decides(preferences, c, source, id) && source != Automatic
      ensures Honoured(factories, m, source, id, c) <==>
                && id in available && c in available[id].descriptor.capabilities
                && (source == InstalledState || available[id].probe.available)
    {
      if id in available {
        var f := ProbedBackend(factories, m, id);
      }
      forall f | f in factories && f.id == id
        ensures f.ProbeOn(m).Success? && id in available && available[id] == BackendOf(f.On(m))
      {
        CollectedOnMachine(factories, m, f);
      }
    }
  }

  /** Every factory is collected with what its probe said. */
  lemma CollectedOnMachine(factories: seq<LinuxFactory>, m: Machine, f: LinuxFactory)
    requires Collect(OnMachine(factories, m)).Success? && f in factories
    ensures var available := Collect(OnMachine(factories, m)).value;
            f.ProbeOn(m).Success? && f.id in available && available[f.id] == BackendOf(f.On(m))
  {
    var fs := OnMachine(factories, m);
    CollectIff(fs);
    var i :| 0 <= i < |factories| && factories[i] == f;
    assert fs[i] == f.On(m) && fs[i] in fs;
  }

  /**
   The bootstrap exception does not depend on who chose the backend: what resolved and is short of
   commands was chosen automatically or by the installed state.
   */
  lemma RestorableIff(fs: seq<Factory>, preferences: Preferences, order: seq<Capability>, op: Operation,
                      c: Capability)
    requires ResolveSpec(fs, preferences, order).Success?
    ensures var r := ResolveSpec(fs, preferences, order).value;
            CanRestore(r, op, c) <==>
              && (op.Install? || op.Repair?) && c != Capability.Install && c != PackageAdvice
              && ShortOfCommands(r, c)
  {
    var available, r := Collect(fs).value, ResolveSpec(fs, preferences, order).value;
    if ShortOfCommands(r, c) {
      FoundStatusIsSound(available, preferences, order, c);
      SelectionsAreSound(available, preferences, order);
      SelectionFound(r.selections, c);
      var selection := SelectionFor(r.selections, c).value;
      assert SelectionSound(available, preferences, selection);
      assert Decides(preferences, c, selection.source, selection.backendId);
    }
  }

  lemma {:induction false} SelectionFound(selections: seq<Selection>, c: Capability)
    ensures SelectionFor(selections, c).Some? ==>
              SelectionFor(selections, c).value in selections && SelectionFor(selections, c).value.capability == c
  {
    if selections != [] {
      SelectionFound(selections[1..], c);
    }
  }

  /** Composing fails when systemd cannot be asked or an explicit choice cannot be honoured, and for no other reason. */
  lemma ComposedFailsIff(m: Machine, preferences: Preferences)
    ensures Composed(m, preferences).Failure? <==>
            SYSTEMD.ProbeOn(m).Failure? || ChoiceRefused(PRODUCTION, m, preferences)
  {
    ProductionIsRegistrable(m);
    if SYSTEMD.ProbeOn(m).Success? {
      RefusalIsExact(PRODUCTION, m, preferences);
    }
  }

  lemma RefusalIsExact(factories: seq<LinuxFactory>, m: Machine, preferences: Preferences)
    requires Collect(OnMachine(factories, m)).Success?
    ensures ResolveSpec(OnMachine(factories, m), preferences, InOrder(EVERYTHING)).Failure? <==>
            ChoiceRefused(factories, m, preferences)
  {
    var available, order := Collect(OnMachine(factories, m)).value, InOrder(EVERYTHING);
    ResolveFailsIff(available, preferences, order);
    if c :| c in order && ExplicitFails(available, preferences, c) {
      ExplicitFailsIff(factories, m, preferences, c);
      assert ChoiceRefusedFor(factories, m, preferences, c);
    }
    if c :| ChoiceRefusedFor(factories, m, preferences, c) {
      ExplicitFailsIff(factories, m, preferences, c);
      EveryCapabilityIsListed(c);
      InOrderIsComplete(EVERYTHING, c);
    }
  }

  /** The advisor is built exactly when it is selected. */
  lemma AdvisorIsBuilt(fs: seq<Factory>, selections: seq<Selection>, components: seq<Component>)
    requires Instantiate(fs, selections, true) == Success(components)
    ensures SelectionFor(selections, PackageAdvice).Some? <==>
            exists component :: component in components && component.capability == PackageAdvice
  {
    Instantiates(fs, selections, true);
    SelectionForMember(selections, PackageAdvice);
    if s :| s in selections && s.capability == PackageAdvice {
      var i :| 0 <= i < |selections| && selections[i] == s;
      assert components[i] in components;
    }
    if component :| component in components && component.capability == PackageAdvice {
      var i :| 0 <= i < |components| && components[i] == component;
      assert selections[i] in selections;
    }
  }

  /**
   One process from composition to the operation: nothing starts without every required
   capability supported. `loaded` is what configuration, state and command line say, None when
   one of them cannot be loaded or parsed; `httpBuilds` is whether the HTTP clients of the
   installer and the downloader can be built.
   */
  method ComposeAndExecute(m: Machine, loaded: Option<Preferences>, httpBuilds: bool, tunEnabled: bool,
                           releaseSource: bool, op: Operation, options: Options, world: World)
    returns (outcome: Option<Outcome>)
    requires world.commands <= m.commands
    ensures outcome.None? <==>
            || loaded.None? || !httpBuilds || SYSTEMD.ProbeOn(m).Failure?
            || ChoiceRefused(PRODUCTION, m, loaded.value)
    ensures outcome.Some? ==>
              && Composed(m, loaded.value).Success?
              && (outcome.value.Reached? <==>
                    && !options.dryRun && Clear(op, options, tunEnabled, releaseSource, world)
                    && (forall c :: c in Required(op, tunEnabled) ==> Supported(Composed(m, loaded.value).value, c))
                    && (Bootstraps(op) ==> Leftover(ADVISED, tunEnabled, world.commands) == []))
  {
    var gate := ComposeGate(m, loaded, httpBuilds, tunEnabled, releaseSource);
    if gate == null {
      return None;
    }
    var reached := gate.Execute(op, options, world);
    ProductionIsCovered();
    ResolutionIsFaithful(PRODUCTION, m, loaded.value, InOrder(EVERYTHING), gate.resolution);
    GateIsExact(PRODUCTION, ADVISED, m, gate.resolution, op, tunEnabled, world.commands);
    return Some(reached);
  }

  /** What is composed before any operation: the resolution, its components, and the gate over them. */
  method ComposeGate(m: Machine, loaded: Option<Preferences>, httpBuilds: bool, tunEnabled: bool, releaseSource: bool)
    returns (gate: OperationGate?)
    ensures gate == null <==>
            || loaded.None? || !httpBuilds || SYSTEMD.ProbeOn(m).Failure?
            || ChoiceRefused(PRODUCTION, m, loaded.value)
    ensures gate != null ==>
              && Composed(m, loaded.value) == Success(gate.resolution)
              && gate.tunEnabled == tunEnabled && gate.releaseSource == releaseSource
              && (gate.advisor != null <==> SelectionFor(gate.resolution.selections, PackageAdvice).Some?)
  {
    if loaded.None? {
      return null;
    }
    var preferences := loaded.value;
    var registry := new BackendRegistry();
    RegisterProduction(registry, m);
    assert registry.factories == Production(m);
    ComposedFailsIff(m, preferences);
    var resolution := registry.Resolve(preferences, EVERYTHING);
    if resolution.Failure? {
      return null;
    }
    var components := Instantiate(registry.factories, resolution.value.selections, httpBuilds);
    ProductionIsBuildable();
    ResolvedIsInstantiable(PRODUCTION, m, preferences, InOrder(EVERYTHING), httpBuilds);
    if components.Failure? || !httpBuilds {
      return null;
    }
    gate := new OperationGate(resolution.value, components.value, tunEnabled, releaseSource);
    AdvisorIsBuilt(registry.factories, resolution.value.selections, components.value);
  }
}

/** Whole sessions: any sequence of commands, each under any faults, from an empty host. */
module Session {
  import opened Prelude
  import opened Domain
  import opened Transactions
  import opened Host
  import Application
  import Installer

  /** One command with what the outside world offers it: the release, the downloads, the answers of the active core. */
  datatype Command =
    | Apply(selected: Option<string>)
    | Rollback(component: Component)
    | Install(identities: seq<string>, tag: string, content: nat, assetCount: nat)
    | Repair(identities: seq<string>, tag: string, content: nat, assetCount: nat, coreAnswers: bool, assetsValid: bool)
    | Upgrade(core: bool, assets: bool, tag: string, content: nat, assetCount: nat)
    | Remove(purge: bool)

  datatype Settings = Settings(tunEnabled: bool, keepCores: nat, keepAssets: nat, keepGenerations: nat,
    backends: map<string, string>)

  /** The core versions that a command may replace in place. */
  function Replaced(command: Command): set<Name> {
    match command
    case Install(_, tag, _, _) => {Release(tag)}
    case Repair(_, tag, _, _, _, _) => {Release(tag)}
    case Upgrade(_, _, tag, _, _) => {Release(tag)}
    case _ => {}
  }

  function ReplacedByAny(commands: seq<Command>): set<Name> {
    set c, n | c in commands && n in Replaced(c) :: n
  }

  /** Every pointer names a directory, except that some of the cores `names` may be missing. */
  ghost predicate StandingExcept(names: set<Name>, d: Disk) {
    && d.links.core.Targets() - names <= d.dirs.core.Keys
    && d.links.assets.Targets() <= d.dirs.assets.Keys && d.links.config.Targets() <= d.dirs.config.Keys
  }

  /** A purge that stopped between /var/lib and /opt, on a host with a core or asset pointer. */
  ghost predicate HalfPurged(s: Snapshot, command: Command, s': Snapshot) {
    && command == Remove(true) && s' == Installer.WithoutState(s)
    && !(s.links.core == NO_PAIR && s.links.assets == NO_PAIR)
  }

  /** What a command asks for before anything can go wrong. */
  predicate Applicable(s: Snapshot, command: Command) {
    match command
    case Rollback(c) => s.links.Get(c).previous.Some?
    case Install(_, tag, _, _) => Installer.ValidTag(tag)
    case Repair(_, tag, _, _, _, _) => Installer.ValidTag(tag)
    case Upgrade(core, _, tag, _, _) => s.links.config.current.Some? && (core ==> Installer.ValidTag(tag))
    case _ => true
  }

  /** One process: compose from what is on disk, run one command. */
  method Execute(host: Host, settings: Settings, command: Command) returns (ok: bool, ghost moves: Trio<Move>)
    requires host.Ready()
    modifies host
    ensures host.Agrees() ==> host.Ready() && Step(old(host.Snap()), moves, host.Snap())
    ensures old(host.lapses) <= host.lapses
    ensures host.lapses == old(host.lapses) ==>
              host.Agrees() || HalfPurged(old(host.Snap()), command, host.Snap())
    ensures old(host.faults) <= host.faults
    ensures !ok && Applicable(old(host.Snap()), command) ==> old(host.faults) < host.faults
    ensures ok ==> host.faults == old(host.faults)
    ensures ok && command.Apply? ==> host.state.Some? && host.state.value.selectedNode == command.selected
    ensures ok && (command.Apply? || command.Rollback?) ==> host.process == Some(ActiveProcess(host.links))
    ensures ok && (command.Apply? || command.Install? || command.Repair?) ==> host.ActiveTested()
    ensures host.Continues(old(host.history))
    ensures host.lapses == old(host.lapses) && !command.Remove? ==>
              forall i :: |old(host.history)| <= i < |host.history| ==>
                StandingExcept(Replaced(command), host.history[i])
  {
    ghost var before := host.Snap();
    match command
    case Apply(selected) =>
      var manager := new Application.ManagerService(host, settings.tunEnabled, settings.keepGenerations);
      var r, candidate := manager.ApplyConfig(selected);
      ok := r.Success?;
      moves := if host.links == before.links then HOLD else HOLD.(config := To(candidate));
    case Rollback(c) =>
      ok, moves := ExecuteRollback(host, settings, c);
    case Install(identities, tag, content, assetCount) =>
      ok, moves := ExecuteInstall(host, settings, false, identities, tag, content, assetCount, false, false);
    case Repair(identities, tag, content, assetCount, coreAnswers, assetsValid) =>
      ok, moves :=
        ExecuteInstall(host, settings, true, identities, tag, content, assetCount, coreAnswers, assetsValid);
    case Upgrade(core, assets, tag, content, assetCount) =>
      ok, moves := ExecuteUpgrade(host, settings, core, assets, tag, content, assetCount);
    case Remove(purge) =>
      ok, moves := ExecuteRemoval(host, settings, purge);
  }

  method ExecuteInstall(host: Host, settings: Settings, repair: bool, identities: seq<string>, tag: string,
                        content: nat, assetCount: nat, coreAnswers: bool, assetsValid: bool)
    returns (ok: bool, ghost moves: Trio<Move>)
    requires host.Ready()
    modifies host
    ensures host.Agrees() ==> host.Ready() && Step(old(host.Snap()), moves, host.Snap())
    ensures old(host.lapses) <= host.lapses
    ensures host.lapses == old(host.lapses) ==> host.Agrees()
    ensures ok ==> host.ActiveTested()
    ensures old(host.faults) <= host.faults
    ensures !ok ==> old(host.faults) < host.faults || !Installer.ValidTag(tag)
    ensures ok ==> host.faults == old(host.faults)
    ensures host.Continues(old(host.history))
    ensures host.lapses == old(host.lapses) ==>
              forall i :: |old(host.history)| <= i < |host.history| ==>
                StandingExcept({Release(tag)}, host.history[i])
  {
    ghost var before := host.Snap();
    var installer := Compose(host, settings);
    var r, _ := installer.InstallOrRepair(repair, identities, tag, content, assetCount, coreAnswers, assetsValid);
    ok := ReloadState(host, r.Success?);
    moves := ForwardAll(before.links, host.links);
  }

  method ExecuteUpgrade(host: Host, settings: Settings, core: bool, assets: bool, tag: string, content: nat,
                        assetCount: nat)
    returns (ok: bool, ghost moves: Trio<Move>)
    requires host.Ready()
    modifies host
    ensures host.Agrees() ==> host.Ready() && Step(old(host.Snap()), moves, host.Snap())
    ensures old(host.lapses) <= host.lapses
    ensures host.lapses == old(host.lapses) ==> host.Agrees()
    ensures old(host.faults) <= host.faults
    ensures !ok && Applicable(old(host.Snap()), Upgrade(core, assets, tag, content, assetCount)) ==>
              old(host.faults) < host.faults
    ensures ok ==> host.faults == old(host.faults)
    ensures host.Continues(old(host.history))
    ensures host.lapses == old(host.lapses) ==>
              forall i :: |old(host.history)| <= i < |host.history| ==>
                StandingExcept({Release(tag)}, host.history[i])
  {
    ghost var before := host.Snap();
    var installer := Compose(host, settings);
    var r, _, _ := installer.ApplyUpgrade(core, assets, tag, content, assetCount);
    moves := ForwardAll(before.links, host.links);
    ok := ReloadState(host, r.Success?);
  }

  method ExecuteRemoval(host: Host, settings: Settings, purge: bool) returns (ok: bool, ghost moves: Trio<Move>)
    requires host.Ready()
    modifies host
    ensures host.Agrees() ==> host.Ready() && Step(old(host.Snap()), moves, host.Snap())
    ensures old(host.lapses) <= host.lapses
    ensures host.lapses == old(host.lapses) ==>
              host.Agrees() || HalfPurged(old(host.Snap()), Remove(purge), host.Snap())
    ensures old(host.faults) <= host.faults && (!ok <==> old(host.faults) < host.faults)
    ensures host.Continues(old(host.history))
  {
    ghost var before := host.Snap();
    var installer := Compose(host, settings);
    var r := installer.ApplyRemoval(purge);
    RemovalIsStep(before, host.Snap());
    moves := if host.links == before.links then HOLD else Trio(Clear, Clear, Clear);
    ok := ReloadState(host, r.Success?);
  }

  lemma RemovalIsStep(s: Snapshot, s': Snapshot)
    requires Inv(s) && Shrunk(s, s')
    ensures Inv(s') ==> Step(s, if s'.links == s.links then HOLD else Trio(Clear, Clear, Clear), s')
    ensures s' in {s, Installer.WithoutState(s), Installer.WithoutHost(s)} ==>
              Inv(s') || (s' == Installer.WithoutState(s) && !(s.links.core == NO_PAIR && s.links.assets == NO_PAIR))
  {
    if Inv(s') {
      RemovalIsLegal(s, s');
    }
    Installer.PurgedHalfway(s);
  }

  method ExecuteRollback(host: Host, settings: Settings, c: Component) returns (ok: bool, ghost moves: Trio<Move>)
    requires host.Ready()
    modifies host
    ensures host.Agrees() ==> host.Ready() && Step(old(host.Snap()), moves, host.Snap())
    ensures old(host.lapses) <= host.lapses
    ensures host.lapses == old(host.lapses) ==> host.Agrees()
    ensures host.Continues(old(host.history))
    ensures forall i :: |old(host.history)| <= i < |host.history| ==> StandingExcept({}, host.history[i])
    ensures old(host.faults) <= host.faults
    ensures !ok <==> old(host.faults) < host.faults
    ensures ok ==> host.process == Some(ActiveProcess(host.links))
  {
    ghost var before := host.Snap();
    var manager := new Application.ManagerService(host, settings.tunEnabled, settings.keepGenerations);
    var r := manager.ManualRollback(c);
    forall i | |old(host.history)| <= i < |host.history|
      ensures StandingExcept({}, host.history[i])
    {
      Application.RollbackCrashStands(before, c, host.history[i]);
    }
    ok := r.Success?;
    moves := if host.links == before.links then HOLD else ExchangeOnly(c);
  }

  /**
   What the manager does after the installer succeeded; it can fail, and then reports an error
   for what is committed.
   */
  method ReloadState(host: Host, applied: bool) returns (ok: bool)
    modifies host`faults
    ensures ok ==> applied
    ensures old(host.faults) <= host.faults && (applied ==> (!ok <==> old(host.faults) < host.faults))
  {
    if !applied { return false; }
    var read := host.ReadState();
    ok := read.Success?;
  }

  method Compose(host: Host, settings: Settings) returns (installer: Installer.ArchInstaller)
    ensures installer.host == host
  {
    installer := new Installer.ArchInstaller(host, settings.tunEnabled, settings.keepCores, settings.keepAssets,
                                             settings.keepGenerations, settings.backends);
  }

  /**
   Whole-run agreement. Commands are executed as long as pointers and state agree, and at every
   point between them the invariant holds. If no call failed, every applicable command succeeds.
   If no call lapsed, the only thing that ends a run early is a purge that stopped halfway; and
   whenever the machine stopped in a run without removals, every pointer was left on a directory,
   but for the version that an installer was replacing.
   */
  method RunCommands(settings: Settings, commands: seq<Command>)
    returns (host: Host, executed: nat, results: seq<bool>, ghost trace: seq<Snapshot>,
             ghost moves: seq<Trio<Move>>)
    ensures fresh(host) && executed <= |commands|
    ensures host.Agrees() ==> executed == |commands| && host.Ready()
    ensures Run(trace, moves) && trace[0] == EMPTY_HOST
    ensures |moves| == if host.Agrees() then executed else executed - 1
    ensures host.Agrees() ==> trace[executed] == host.Snap()
    ensures forall i :: 0 <= i < |trace| ==> Inv(trace[i])
    ensures |results| == executed
    ensures host.faults == 0 ==>
              forall i :: 0 <= i < executed && Applicable(trace[i], commands[i]) ==> results[i]
    ensures false !in results ==> host.faults == 0
    ensures host.lapses == 0 && !host.Agrees() ==>
              HalfPurged(trace[|moves|], commands[executed - 1], host.Snap())
    ensures host.lapses == 0 && (forall c :: c in commands ==> !c.Remove?) ==>
              forall i :: 0 <= i < |host.history| ==> StandingExcept(ReplacedByAny(commands), host.history[i])
  {
    host := new Host();
    executed, results := 0, [];
    trace, moves := [host.Snap()], [];
    while executed < |commands| && host.Agrees()
      invariant executed <= |commands| && fresh(host)
      invariant Run(trace, moves) && trace[0] == EMPTY_HOST
      invariant |moves| == if host.Agrees() then executed else executed - 1
      invariant host.Agrees() ==> host.Ready() && trace[|moves|] == host.Snap()
      invariant |results| == executed
      invariant host.faults == 0 ==>
                  forall i :: 0 <= i < executed && Applicable(trace[i], commands[i]) ==> results[i]
      invariant false !in results ==> host.faults == 0
      invariant host.lapses == 0 && !host.Agrees() ==>
                  HalfPurged(trace[|moves|], commands[executed - 1], host.Snap())
      invariant host.lapses == 0 && (forall c :: c in commands ==> !c.Remove?) ==>
                  forall i :: 0 <= i < |host.history| ==> StandingExcept(ReplacedByAny(commands), host.history[i])
      decreases |commands| - executed
    {
      ghost var command := commands[executed];
      assert command in commands && Replaced(command) <= ReplacedByAny(commands);
      var ok, move := Execute(host, settings, commands[executed]);
      executed, results := executed + 1, results + [ok];
      if host.Agrees() {
        trace := trace + [host.Snap()];
        moves := moves + [move];
      }
    }
    forall i | 0 <= i < |trace|
      ensures Inv(trace[i])
    {
      RunsKeepInv(trace, moves, i);
    }
  }
}

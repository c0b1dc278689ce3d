/** ArchInstaller: core and asset preparation, and the multi-component install and upgrade transactions. */
module Installer {
  import opened Prelude
  import opened Domain
  import opened Transactions
  import opened Host

  datatype InstallStage =
    | Preparing | Validating | Owning | Switching | WritingState | Activating | Compensating | HealthStamp | Removing

  /** What an install or repair is about to activate. Without `newConfig` the active configuration stays. */
  datatype Prepared = Prepared(core: Name, assets: Name, config: Name, newConfig: bool)

  /** `validate_generation_name`: a release tag that can be used as a directory name. */
  predicate ValidTag(tag: string) {
    tag != "" && forall i :: 0 <= i < |tag| ==>
      || 'a' <= tag[i] <= 'z' || 'A' <= tag[i] <= 'Z' || '0' <= tag[i] <= '9' || tag[i] in ".-_"
  }

  /** A valid tag names one entry of the versions directory. */
  lemma TagIsOneName(tag: string)
    requires ValidTag(tag)
    ensures tag != "" && '/' !in tag
    ensures forall c :: c in tag ==> 'a' <= c <= 'z' || 'A' <= c <= 'Z' || '0' <= c <= '9' || c in {'.', '-', '_'}
  {
  }

  /** The generation fields after `write_state`. */
  function AdvanceAll(fields: Trio<Pair>, p: Prepared): Trio<Pair> {
    Trio(fields.core.Advance(p.core), fields.assets.Advance(p.assets), fields.config.Advance(p.config))
  }

  function InstalledState(state: ManagerState, p: Prepared, identities: set<string>, backends: map<string, string>)
    : ManagerState
  {
    state.(generations := AdvanceAll(state.generations, p),
           createdIdentities := state.createdIdentities + identities,
           installedBackends := backends)
  }

  /** `state` once its health check is stamped. */
  function Stamped(state: ManagerState, now: Option<nat>): ManagerState {
    state.(lastHealthcheck := now, lastRollbackReason := None)
  }

  /** `state` with a stamp. */
  ghost predicate IsStamped(state: ManagerState, state': ManagerState) {
    state'.lastHealthcheck.Some? && state' == Stamped(state, state'.lastHealthcheck)
  }

  ghost predicate AllOrdered(links: Trio<Pair>) {
    links.core.Ordered() && links.assets.Ordered() && links.config.Ordered()
  }

  /** Directories may have come, and none but `name` may have gone. */
  ghost predicate DirsKept(before: Trio<map<Name, Dir>>, name: Name, after: Trio<map<Name, Dir>>) {
    && before.core.Keys - {name} <= after.core.Keys
    && before.assets.Keys <= after.assets.Keys && before.config.Keys <= after.config.Keys
  }

  function Aside(quarantined: Option<Name>): set<Name> {
    if quarantined.Some? then {quarantined.value} else {}
  }

  /** Every pointer names a directory, except that the core `name` may be missing. */
  ghost predicate StandingBut(name: Name, d: Disk) {
    && d.links.core.Targets() - {name} <= d.dirs.core.Keys
    && d.links.assets.Targets() <= d.dirs.assets.Keys && d.links.config.Targets() <= d.dirs.config.Keys
  }

  /** Directories may have been pruned, but none that the links need. */
  ghost predicate Pruned(links: Trio<Pair>, before: Trio<map<Name, Dir>>, after: Trio<map<Name, Dir>>) {
    && after.core.Keys <= before.core.Keys && links.core.Targets() * before.core.Keys <= after.core.Keys
    && after.assets.Keys <= before.assets.Keys && links.assets.Targets() * before.assets.Keys <= after.assets.Keys
    && after.config.Keys <= before.config.Keys && links.config.Targets() * before.config.Keys <= after.config.Keys
  }

  /** What runs after `enable --now`: a process that ran before is left alone. */
  function StartedWith(running: Option<Process>, process: Process): Option<Process> {
    if running.None? then Some(process) else running
  }

  lemma StartedIff(running: Option<Process>, process: Process)
    ensures StartedWith(running, process) == Some(process) <==> running.None? || running == Some(process)
  {
  }

  /** The calls of an activation that goes through. */
  function InstallSignals(tunEnabled: bool, checkHealth: bool, process: Process, running: Option<Process>)
    : seq<Signal>
  {
    [ReloadUnits] + (if tunEnabled then [StartPolicy] else [DisablePolicy, PolicyOff]) + [StartNow(process)]
    + if checkHealth then [Health(running)] else []
  }

  function UpgradeSignals(checkHealth: bool, process: Process): seq<Signal> {
    [Restart(process)] + if checkHealth then [Health(Some(process))] else []
  }

  class ArchInstaller {
    const host: Host
    const tunEnabled: bool
    const keepCores: nat
    const keepAssets: nat
    const keepGenerations: nat
    const backends: map<string, string>

    constructor (host: Host, tunEnabled: bool, keepCores: nat, keepAssets: nat, keepGenerations: nat,
                 backends: map<string, string>)
      ensures this.host == host
    {
      this.host := host;
      this.tunEnabled := tunEnabled;
      this.keepCores := keepCores;
      this.keepAssets := keepAssets;
      this.keepGenerations := keepGenerations;
      this.backends := backends;
    }

    /**
     Put a working release under its tag. An occupied version directory is moved
     aside first and moved back when the staged copy cannot take its place: a directory
     that was there is gone only if a rename that should have put one back failed.
     */
    method PrepareCore(tag: string, content: nat) returns (r: Result<Name, InstallStage>)
      requires host.Recorded()
      modifies host`dirs, host`serial, host`lapses, host`history, host`staged, host`answered, host`tested, host`faults
      ensures old(host.faults) <= host.faults
      ensures r.Failure? ==> old(host.faults) < host.faults || !ValidTag(tag)
      ensures r.Success? ==> host.faults == old(host.faults)
      ensures host.dirs == old(host.dirs).(core := host.dirs.core)
      ensures host.serial >= old(host.serial)
      ensures host.tested <= old(host.tested)
      ensures forall n :: n in old(host.dirs).core && n != Release(tag) ==>
                n in host.dirs.core && host.dirs.core[n] == old(host.dirs).core[n]
      ensures forall n :: n in host.dirs.core && n !in old(host.dirs).core && n != Release(tag) ==>
                Used(n, host.serial) && !n.Generation?
      ensures Release(tag) in host.dirs.core ==>
                || (Release(tag) in old(host.dirs).core
                     && host.dirs.core[Release(tag)] == old(host.dirs).core[Release(tag)])
                || (host.dirs.core[Release(tag)].content == content && content in host.staged)
      ensures old(host.lapses) <= host.lapses
      ensures Release(tag) in old(host.dirs).core && host.lapses == old(host.lapses) ==> Release(tag) in host.dirs.core
      ensures Release(tag) !in old(host.dirs).core ==> host.lapses == old(host.lapses)
      ensures host.Continues(old(host.history))
      ensures forall i :: |old(host.history)| <= i < |host.history| ==>
                && host.history[i] == host.OnDisk().(dirs := host.history[i].dirs)
                && DirsKept(old(host.dirs), Release(tag), host.history[i].dirs)
      ensures r.Failure? ==> r.at in {Preparing, Validating}
      ensures r.Success? ==>
                && host.lapses == old(host.lapses)
                && r.value == Release(tag) && r.value in host.dirs.core
                && (r.value, host.dirs.core[r.value].content) in host.answered
    {
      var name := Release(tag);
      var ok := host.Attempt(); // release, archive
      if !ok || !ValidTag(tag) { return Failure(Preparing); }
      ok := host.Version(name, false);
      if ok { return Success(name); }
      ok := host.Attempt(); // extract to staging
      if !ok { return Failure(Preparing); }
      ok := host.StagedVersion(content);
      if !ok { return Failure(Preparing); }
      ok := host.Attempt(); // versions root
      if !ok { return Failure(Preparing); }
      r := ReplaceVersion(name, content);
    }

    method ReplaceVersion(name: Name, content: nat) returns (r: Result<Name, InstallStage>)
      requires name.Release? && content in host.staged && host.Recorded()
      modifies host`dirs, host`serial, host`lapses, host`history, host`answered, host`tested, host`faults
      ensures old(host.faults) <= host.faults && (r.Failure? <==> old(host.faults) < host.faults)
      ensures host.dirs == old(host.dirs).(core := host.dirs.core)
      ensures host.serial >= old(host.serial)
      ensures host.tested <= old(host.tested)
      ensures forall n :: n in old(host.dirs).core && n != name ==>
                n in host.dirs.core && host.dirs.core[n] == old(host.dirs).core[n]
      ensures forall n :: n in host.dirs.core && n !in old(host.dirs).core && n != name ==>
                Used(n, host.serial) && !n.Generation?
      ensures name in host.dirs.core ==>
                || (name in old(host.dirs).core && host.dirs.core[name] == old(host.dirs).core[name])
                || host.dirs.core[name].content == content
      ensures old(host.lapses) <= host.lapses
      ensures name in old(host.dirs).core && host.lapses == old(host.lapses) ==> name in host.dirs.core
      ensures name !in old(host.dirs).core ==> host.lapses == old(host.lapses)
      ensures host.Continues(old(host.history))
      ensures forall i :: |old(host.history)| <= i < |host.history| ==>
                && host.history[i] == host.OnDisk().(dirs := host.history[i].dirs)
                && DirsKept(old(host.dirs), name, host.history[i].dirs)
      ensures r.Failure? ==> r.at in {Preparing, Validating}
      ensures r.Success? ==>
                && host.lapses == old(host.lapses)
                && r.value == name && name in host.dirs.core
                && (name, host.dirs.core[name].content) in host.answered
    {
      var ok, quarantined := SetAside(name);
      if !ok { return Failure(Preparing); }
      ok := host.PublishStaged(name, content);
      if !ok {
        if quarantined.Some? {
          var _ := host.MoveBack(Core, quarantined.value, name);
        }
        return Failure(Preparing);
      }
      r := CheckPublished(name, quarantined);
    }

    /** An occupied name is made free. A directory that cannot be seen is left where it is. */
    method SetAside(name: Name) returns (ok: bool, quarantined: Option<Name>)
      requires host.Recorded()
      modifies host`dirs, host`serial, host`history, host`faults
      ensures old(host.faults) <= host.faults && (!ok <==> old(host.faults) < host.faults)
      ensures host.serial >= old(host.serial)
      ensures quarantined.Some? ==>
                && ok && name in old(host.dirs).core && quarantined.value !in old(host.dirs).core
                && quarantined.value.Quarantine? && Used(quarantined.value, host.serial)
      ensures host.dirs == if quarantined.None? then old(host.dirs)
                           else old(host.dirs).(core :=
                             (old(host.dirs).core - {name})[quarantined.value := old(host.dirs).core[name]])
      ensures host.history in {old(host.history), old(host.history) + [host.OnDisk()]} && host.Recorded()
    {
      ok, quarantined := true, None;
      var glimpsed: bool := *;
      if glimpsed && name in host.dirs.core {
        var serial := host.UniqueSerial();
        ok := host.MoveDir(Core, name, Quarantine(serial));
        quarantined := if ok then Some(Quarantine(serial)) else None;
      }
    }

    /** What was published is asked for its version in place, and withdrawn if it does not answer. */
    method CheckPublished(name: Name, quarantined: Option<Name>) returns (r: Result<Name, InstallStage>)
      requires name in host.dirs.core && name.Release? && host.Recorded()
      requires quarantined.Some? ==> quarantined.value in host.dirs.core && quarantined.value.Quarantine?
      modifies host`dirs, host`serial, host`lapses, host`history, host`answered, host`faults
      ensures old(host.faults) <= host.faults && (r.Failure? <==> old(host.faults) < host.faults)
      ensures host.dirs == old(host.dirs).(core := host.dirs.core)
      ensures host.serial >= old(host.serial)
      ensures forall n :: n in old(host.dirs).core && n != name && Some(n) != quarantined ==>
                n in host.dirs.core && host.dirs.core[n] == old(host.dirs).core[n]
      ensures forall n :: n in host.dirs.core && n !in old(host.dirs).core ==> Used(n, host.serial) && n.Failed?
      ensures name in host.dirs.core ==>
                || host.dirs.core[name] == old(host.dirs).core[name]
                || (quarantined.Some? && host.dirs.core[name] == old(host.dirs).core[quarantined.value])
      ensures old(host.lapses) <= host.lapses
      ensures quarantined.Some? && host.lapses == old(host.lapses) ==> name in host.dirs.core
      ensures quarantined.None? ==> host.lapses == old(host.lapses)
      ensures r.Failure? ==> r.at in {Preparing, Validating}
      ensures r.Success? ==>
                && host.lapses == old(host.lapses)
                && r.value == name && name in host.dirs.core
                && (name, host.dirs.core[name].content) in host.answered
      ensures host.Continues(old(host.history))
      ensures forall i :: |old(host.history)| <= i < |host.history| ==>
                && host.history[i] == host.OnDisk().(dirs := host.history[i].dirs)
                && DirsKept(old(host.dirs).(core := old(host.dirs).core - Aside(quarantined)), name,
                            host.history[i].dirs)
    {
      var ok := host.Attempt(); // directory sync
      if !ok { return Failure(Preparing); }
      ok := host.Version(name, true);
      if !ok {
        r := WithdrawVersion(name, quarantined);
        return;
      }
      if quarantined.Some? {
        host.RemoveDir(Core, quarantined.value);
        ok := host.Attempt(); // whether the removal reported an error
        if !ok { return Failure(Preparing); }
      }
      return Success(name);
    }

    /** The staged copy did not run in place: take it away and bring the former directory back. */
    method WithdrawVersion(name: Name, quarantined: Option<Name>) returns (r: Result<Name, InstallStage>)
      requires name in host.dirs.core && name.Release? && host.Recorded()
      requires quarantined.Some? ==> quarantined.value in host.dirs.core && quarantined.value.Quarantine?
      modifies host`dirs, host`serial, host`lapses, host`history, host`faults
      ensures old(host.faults) <= host.faults
      ensures r == Failure(Validating)
      ensures host.dirs == old(host.dirs).(core := host.dirs.core)
      ensures host.serial >= old(host.serial)
      ensures forall n :: n in old(host.dirs).core && n != name && Some(n) != quarantined ==>
                n in host.dirs.core && host.dirs.core[n] == old(host.dirs).core[n]
      ensures forall n :: n in host.dirs.core && n !in old(host.dirs).core ==> Used(n, host.serial) && n.Failed?
      ensures name in host.dirs.core ==>
                || host.dirs.core[name] == old(host.dirs).core[name]
                || (quarantined.Some? && host.dirs.core[name] == old(host.dirs).core[quarantined.value])
      ensures old(host.lapses) <= host.lapses
      ensures quarantined.Some? ==> (name !in host.dirs.core <==> host.lapses == old(host.lapses) + 2)
      ensures quarantined.Some? && host.lapses == old(host.lapses) ==>
                || host.dirs == old(host.dirs)
                || host.dirs.core[name] == old(host.dirs).core[quarantined.value]
      ensures quarantined.None? ==> host.lapses == old(host.lapses)
      ensures host.Continues(old(host.history))
      ensures forall i :: |old(host.history)| <= i < |host.history| ==>
                && host.history[i] == host.OnDisk().(dirs := host.history[i].dirs)
                && DirsKept(old(host.dirs).(core := old(host.dirs).core - Aside(quarantined)), name,
                            host.history[i].dirs)
    {
      var serial := host.UniqueSerial();
      var failed := Failed(serial);
      var ok := host.MoveDir(Core, name, failed);
      if !ok { return Failure(Validating); }
      if quarantined.Some? {
        ok := host.MoveBack(Core, quarantined.value, name);
        if !ok {
          var _ := host.MoveBack(Core, failed, name);
          return Failure(Validating);
        }
      }
      host.RemoveDir(Core, failed);
      return Failure(Validating);
    }

    /** Download every asset into a fresh generation; on failure the generation is removed. */
    method PrepareAssets(count: nat) returns (r: Result<Name, InstallStage>)
      requires host.Recorded()
      modifies host`dirs, host`serial, host`history, host`faults
      ensures old(host.faults) <= host.faults && (r.Failure? <==> old(host.faults) < host.faults)
      ensures host.dirs == old(host.dirs).(assets := host.dirs.assets)
      ensures host.serial == old(host.serial) + 1
      ensures old(host.dirs).assets.Keys - {Generation(old(host.serial))} <= host.dirs.assets.Keys
      ensures host.dirs.assets.Keys <= old(host.dirs).assets.Keys + {Generation(old(host.serial))}
      ensures host.Continues(old(host.history))
      ensures forall i :: |old(host.history)| <= i < |host.history| ==>
                && host.history[i] == host.OnDisk().(dirs := old(host.dirs).(assets := host.history[i].dirs.assets))
                && old(host.dirs).assets.Keys - {Generation(old(host.serial))} <= host.history[i].dirs.assets.Keys
      ensures r.Success? ==> r.value == Generation(old(host.serial)) && r.value in host.dirs.assets
      ensures r.Failure? ==> r.at == Preparing
    {
      var serial := host.UniqueSerial();
      var content: nat := *;
      var ok := host.CreateDir(Assets, Generation(serial), content);
      if !ok { return Failure(Preparing); }
      for i := 0 to count
        invariant Generation(serial) in host.dirs.assets && host.serial == serial + 1
        invariant host.dirs == old(host.dirs).(assets := host.dirs.assets)
        invariant old(host.dirs).assets.Keys - {Generation(serial)} <= host.dirs.assets.Keys
        invariant host.dirs.assets.Keys <= old(host.dirs).assets.Keys + {Generation(serial)}
        invariant host.history == old(host.history) + [host.OnDisk()] && host.faults == old(host.faults)
      {
        ok := host.Attempt(); // download, validate, write
        if !ok {
          host.RemoveDir(Assets, Generation(serial));
          return Failure(Preparing);
        }
      }
      return Success(Generation(serial));
    }

    /** Render the safe initial configuration and test it with the prepared core and assets. */
    method PrepareInitialConfig(core: Name, assets: Name) returns (r: Result<Name, InstallStage>)
      requires host.Recorded()
      modifies host`dirs, host`serial, host`history, host`validated, host`tested, host`faults
      ensures old(host.faults) <= host.faults && (r.Failure? <==> old(host.faults) < host.faults)
      ensures host.dirs == old(host.dirs).(config := host.dirs.config)
      ensures host.serial == old(host.serial) + 1
      ensures old(host.dirs).config.Keys - {Generation(old(host.serial))} <= host.dirs.config.Keys
      ensures host.dirs.config.Keys <= old(host.dirs).config.Keys + {Generation(old(host.serial))}
      ensures host.Continues(old(host.history))
      ensures forall i :: |old(host.history)| <= i < |host.history| ==>
                && host.history[i] == host.OnDisk().(dirs := old(host.dirs).(config := host.history[i].dirs.config))
                && old(host.dirs).config.Keys - {Generation(old(host.serial))} <= host.history[i].dirs.config.Keys
      ensures old(host.validated) <= host.validated <= old(host.validated) + {Generation(old(host.serial))}
      ensures old(host.tested) <= host.tested
      ensures r.Failure? ==> r.at in {Preparing, Validating}
      ensures r.Success? ==>
                && r.value == Generation(old(host.serial))
                && r.value in host.dirs.config && r.value in host.validated
                && Triple(Some(core), Some(assets), r.value) in host.tested
    {
      var serial := host.UniqueSerial();
      var generation := Generation(serial);
      var ok := host.Attempt(); // rendering
      if !ok { return Failure(Preparing); }
      var content: nat := *;
      ok := host.CreateDir(Config, generation, content);
      if !ok { return Failure(Preparing); }
      ok := host.Attempt(); // permissions and rendered files
      if !ok { return Failure(Preparing); }
      ok := host.TestConfig(Some(core), Some(assets), generation);
      if !ok {
        host.RemoveDir(Config, generation);
        return Failure(Validating);
      }
      return Success(generation);
    }

    /** `coreAnswers` tells whether the link can be read and the active core answers when asked for its version. */
    method ReusableCore(state: ManagerState, coreAnswers: bool) returns (r: Option<Name>)
      ensures r.Some? ==> r == host.links.core.current == state.generations.core.current && r.value in host.dirs.core
      ensures host.Ready() && state == Loaded(host.state) ==> r == if coreAnswers then host.links.core.current else None
    {
      var version := state.generations.core.current;
      if version.None? { return None; }
      if host.links.core.current != version || version.value !in host.dirs.core { return None; }
      if !coreAnswers { return None; }
      return version;
    }

    /** `assetsValid` tells whether the link can be read and every configured asset file is present and valid. */
    method ReusableAssets(state: ManagerState, assetsValid: bool) returns (r: Option<Name>)
      ensures r.Some? ==> r == host.links.assets.current == state.generations.assets.current
      ensures host.Ready() && state == Loaded(host.state) ==>
                && r == (if assetsValid then host.links.assets.current else None)
                && (r.Some? ==> r.value in host.dirs.assets)
    {
      var generation := state.generations.assets.current;
      if generation.None? { return None; }
      if host.links.assets.current != generation { return None; }
      if !assetsValid { return None; }
      return generation;
    }

    /** Switch the changed components in order; the first failure restores those already switched. */
    method SwitchAll(p: Prepared, coreChanged: bool, assetsChanged: bool, wanted: Trio<Pair>) returns (ok: bool)
      requires wanted == host.links && host.Recorded()
      modifies host`links, host`lapses, host`refusals, host`history, host`faults
      ensures old(host.faults) <= host.faults && (!ok <==> old(host.faults) < host.faults)
      ensures LinksReach(wanted, p, host.links)
      ensures old(host.lapses) <= host.lapses && host.refusals == old(host.refusals)
      ensures ok ==>
                && (coreChanged ==> host.links.core.current == Some(p.core))
                && (assetsChanged ==> host.links.assets.current == Some(p.assets))
                && (p.newConfig ==> host.links.config.current == Some(p.config))
      ensures !coreChanged ==> host.links.core == wanted.core
      ensures !assetsChanged ==> host.links.assets == wanted.assets
      ensures !p.newConfig ==> host.links.config == wanted.config
      ensures host.lapses == old(host.lapses) ==>
                host.links ==
                if !ok then wanted
                else Trio(if coreChanged then wanted.core.Switch(p.core) else wanted.core,
                          if assetsChanged then wanted.assets.Switch(p.assets) else wanted.assets,
                          if p.newConfig then wanted.config.Switch(p.config) else wanted.config)
      ensures host.Continues(old(host.history))
      ensures forall i :: |old(host.history)| <= i < |host.history| ==>
                var d := host.history[i];
                d == host.OnDisk().(links := d.links) && LinksReach(wanted, p, d.links)
    {
      ok := true;
      if coreChanged {
        ok := host.SwitchGeneration(Core, p.core);
        if !ok { return; }
      }
      if assetsChanged {
        ok := host.SwitchGeneration(Assets, p.assets);
        if !ok {
          RestoreAll(p, coreChanged, false, false, wanted);
          return;
        }
      }
      if p.newConfig {
        ok := host.SwitchGeneration(Config, p.config);
        if !ok {
          RestoreAll(p, coreChanged, assetsChanged, false, wanted);
        }
      }
    }

    /** Restore the changed components, discarding errors: configuration, assets, core. */
    method RestoreAll(ghost p: Prepared, coreChanged: bool, assetsChanged: bool, configChanged: bool,
                      wanted: Trio<Pair>)
      requires LinksReach(wanted, p, host.links) && host.Recorded()
      modifies host`links, host`lapses, host`refusals, host`history
      ensures LinksReach(wanted, p, host.links)
      ensures old(host.lapses) <= host.lapses && host.refusals == old(host.refusals)
      ensures !coreChanged ==> host.links.core == old(host.links).core
      ensures !assetsChanged ==> host.links.assets == old(host.links).assets
      ensures !configChanged ==> host.links.config == old(host.links).config
      ensures host.lapses == old(host.lapses) ==>
                host.links == Trio(if coreChanged then wanted.core else old(host.links).core,
                                   if assetsChanged then wanted.assets else old(host.links).assets,
                                   if configChanged then wanted.config else old(host.links).config)
      ensures host.Continues(old(host.history))
      ensures forall i :: |old(host.history)| <= i < |host.history| ==>
                var d := host.history[i];
                d == host.OnDisk().(links := d.links) && LinksReach(wanted, p, d.links)
    {
      RestoreStaysInReach(wanted.core, p.core, host.links.core);
      RestoreStaysInReach(wanted.assets, p.assets, host.links.assets);
      RestoreStaysInReach(wanted.config, p.config, host.links.config);
      if configChanged {
        var _ := host.RestoreGeneration(Config, wanted.config, false);
      }
      if assetsChanged {
        var _ := host.RestoreGeneration(Assets, wanted.assets, false);
      }
      if coreChanged {
        var _ := host.RestoreGeneration(Core, wanted.core, false);
      }
    }

    /** The installer's `write_state`: re-read, merge, shift what is new, write. */
    method WriteInstalled(p: Prepared, identities: set<string>) returns (ok: bool)
      requires host.Recorded()
      modifies host`state, host`lapses, host`refusals, host`history, host`faults
      ensures old(host.faults) <= host.faults && (!ok <==> old(host.faults) < host.faults)
      ensures ok ==> host.state == Some(InstalledState(old(Loaded(host.state)), p, identities, backends))
      ensures host.state == old(host.state) ||
              host.state == Some(InstalledState(old(Loaded(host.state)), p, identities, backends))
      ensures old(host.lapses) <= host.lapses && host.refusals == old(host.refusals)
      ensures host.lapses == old(host.lapses) ==>
                ok || Loaded(host.state).generations == old(Loaded(host.state)).generations
      ensures host.history in {old(host.history), old(host.history) + [host.OnDisk()]} && host.Recorded()
    {
      var read := host.ReadState();
      if read.Failure? { return false; }
      var state := read.value;
      state := state.(createdIdentities := state.createdIdentities + identities);
      if state.generations.core.current != Some(p.core) {
        state := state.(generations := state.generations.(core := state.generations.core.Shift(p.core)));
      }
      if state.generations.assets.current != Some(p.assets) {
        state := state.(generations := state.generations.(assets := state.generations.assets.Shift(p.assets)));
      }
      if state.generations.config.current != Some(p.config) {
        state := state.(generations := state.generations.(config := state.generations.config.Shift(p.config)));
      }
      ok := host.WriteState(state.(installedBackends := backends), Commit);
    }

    ghost predicate InstallSignalled(pruned: bool, past: seq<Signal>, running: Option<Process>, checkHealth: bool)
      reads host
    {
      && host.process == StartedWith(running, ActiveProcess(host.links))
      && host.signals ==
           past + InstallSignals(tunEnabled, checkHealth, ActiveProcess(host.links), host.process) +
           if pruned
           then [Signal.Prune(Core, keepCores), Signal.Prune(Assets, keepAssets), Signal.Prune(Config, keepGenerations)]
           else []
    }

    ghost predicate UpgradeSignalled(pruned: bool, past: seq<Signal>, checkHealth: bool)
      reads host
    {
      && host.process == Some(ActiveProcess(host.links))
      && host.signals == past + UpgradeSignals(checkHealth, ActiveProcess(host.links)) +
                         if pruned then [Signal.Prune(Core, keepCores), Signal.Prune(Assets, keepAssets)] else []
    }

    ghost predicate RestartedLast(past: seq<Signal>)
      reads host
    {
      past < host.signals && host.signals[|host.signals| - 1] == Restart(ActiveProcess(host.links))
    }

    /** Unit reload, policy service, xray.service and the health check. */
    method Activate(checkHealth: bool) returns (ok: bool)
      modifies host`faults, host`signals, host`process
      ensures old(host.faults) <= host.faults && (!ok <==> old(host.faults) < host.faults)
      ensures old(host.signals) <= host.signals
      ensures ok ==>
                && host.process == StartedWith(old(host.process), ActiveProcess(host.links))
                && host.signals == old(host.signals) +
                     InstallSignals(tunEnabled, checkHealth, ActiveProcess(host.links), host.process)
    {
      ok := host.Command(ReloadUnits);
      if !ok { return; }
      if tunEnabled {
        ok := host.Command(StartPolicy);
        if !ok { return; }
      } else {
        host.BestEffort(DisablePolicy);
        host.BestEffort(PolicyOff);
      }
      ok := host.StartService();
      if !ok { return; }
      if checkHealth {
        ok := host.CheckHealth();
      }
    }

    method PruneAll()
      requires host.Recorded()
      modifies host`dirs, host`lapses, host`shortfalls, host`signals, host`history
      ensures host.signals == old(host.signals) +
                [Signal.Prune(Core, keepCores), Signal.Prune(Assets, keepAssets), Signal.Prune(Config, keepGenerations)]
      ensures old(host.shortfalls) <= host.shortfalls
      ensures old(host.lapses) <= host.lapses
      ensures Fewer(old(host.dirs), host.dirs)
      ensures host.lapses == old(host.lapses) ==> Pruned(host.links, old(host.dirs), host.dirs)
      ensures host.Continues(old(host.history))
      ensures forall i :: |old(host.history)| <= i < |host.history| ==>
                var d := host.history[i];
                && d == host.OnDisk().(dirs := d.dirs)
                && (host.lapses == old(host.lapses) ==> Pruned(host.links, old(host.dirs), d.dirs))
    {
      PruneUpgraded();
      host.Prune(Config, keepGenerations);
    }

    /**
     What has to be switched, and switching it. A link that cannot be read counts as another
     one, so that an unchanged component may be switched too; its field will not follow.
     */
    method SwitchChanged(p: Prepared, oldState: ManagerState)
      returns (r: Result<(), InstallStage>, coreChanged: bool, assetsChanged: bool)
      requires host.links == oldState.generations && AllOrdered(host.links) && host.Recorded()
      requires p.core in host.dirs.core
      requires p.newConfig <==> host.links.config.current != Some(p.config)
      modifies host`links, host`lapses, host`refusals, host`history, host`faults
      ensures old(host.faults) <= host.faults && (r.Failure? <==> old(host.faults) < host.faults)
      ensures LinksReach(oldState.generations, p, host.links)
      ensures old(host.lapses) <= host.lapses && host.refusals == old(host.refusals)
      ensures r.Failure? ==> r.at in {Preparing, Owning, Switching}
      ensures r.Success? ==>
                && host.links.core.current == Some(p.core) && host.links.assets.current == Some(p.assets)
                && host.links.config.current == Some(p.config)
                && (!coreChanged ==> host.links.core == oldState.generations.core)
                && (!assetsChanged ==> host.links.assets == oldState.generations.assets)
                && (!p.newConfig ==> host.links.config == oldState.generations.config)
      ensures host.lapses == old(host.lapses) ==>
                host.links == if r.Success? then AdvanceAll(oldState.generations, p) else oldState.generations
      ensures host.Continues(old(host.history))
      ensures forall i :: |old(host.history)| <= i < |host.history| ==>
                var d := host.history[i];
                d == host.OnDisk().(links := d.links) && LinksReach(oldState.generations, p, d.links)
    {
      coreChanged, assetsChanged := true, true;
      var ok := host.Attempt(); // whether `core/current` can be inspected
      if !ok { return Failure(Preparing), coreChanged, assetsChanged; }
      if oldState.generations.core.current == Some(p.core) &&
         host.links.core.current.Some? && host.links.core.current.value in host.dirs.core {
        var readable := host.CanRead(host.links.core.current);
        coreChanged := !readable || host.links.core.current != Some(p.core);
      }
      if oldState.generations.assets.current == Some(p.assets) {
        var readable := host.CanRead(host.links.assets.current);
        assetsChanged := !readable || host.links.assets.current != Some(p.assets);
      }
      if p.newConfig {
        ok := host.Attempt(); // ownership
        if !ok { return Failure(Owning), coreChanged, assetsChanged; }
      }
      ok := SwitchAll(p, coreChanged, assetsChanged, oldState.generations);
      r := if ok then Success(()) else Failure(Switching);
    }

    /**
     All changed components and the state, or none of them, unless a call lapsed. The one error
     after a full commit is the health stamp. The state is not written back when its write
     fails, so that a failed write that shifted a field is a lapse. Whatever the faults, pointers
     and state end where `LinksReach` and `StateReaches` say, and if they agree the end is legal.
     */
    method ActivateInstall(p: Prepared, identities: set<string>) returns (r: Result<(), InstallStage>)
      requires host.links == Loaded(host.state).generations && AllOrdered(host.links) && host.Recorded()
      requires p.core in host.dirs.core
      requires p.newConfig <==> host.links.config.current != Some(p.config)
      modifies host`links, host`lapses, host`refusals, host`history, host`state, host`dirs
      modifies host`faults, host`signals, host`process, host`shortfalls
      ensures r.Success? || r == Failure(HealthStamp) ==>
                InstallSignalled(r.Success?, old(host.signals), old(host.process),
                                 old(Loaded(host.state)).selectedNode.Some?)
      ensures r == Failure(Activating) && old(host.links).core.current.Some? &&
              old(host.links).core.current.value in old(host.dirs).core ==>
                RestartedLast(old(host.signals))
      ensures old(host.faults) <= host.faults && (r.Failure? <==> old(host.faults) < host.faults)
      ensures Fewer(old(host.dirs), host.dirs) && (r.Failure? ==> host.dirs == old(host.dirs))
      ensures old(host.lapses) <= host.lapses
      ensures host.refusals == old(host.refusals) + if r == Failure(Compensating) then 1 else 0
      ensures host.lapses == old(host.lapses) ==>
                && ActivationKept(r, old(host.links), old(Loaded(host.state)), p, host.links, Loaded(host.state))
                && (r.Success? ==> Pruned(host.links, old(host.dirs), host.dirs))
      ensures host.links == Loaded(host.state).generations ==>
                ActivationEnds(r, old(host.links), old(Loaded(host.state)), p, identities, backends,
                               host.links, Loaded(host.state))
      ensures LinksReach(old(host.links), p, host.links)
      ensures StateReaches(r, old(Loaded(host.state)), p, identities, backends, Loaded(host.state))
      ensures r.Success? ==>
                && host.links.core.current == Some(p.core) && host.links.assets.current == Some(p.assets)
                && host.links.config.current == Some(p.config)
      ensures host.Continues(old(host.history))
      ensures forall i :: |old(host.history)| <= i < |host.history| ==>
                var d := host.history[i];
                && InstallCrash(old(host.links), old(Loaded(host.state)), p, identities, backends, d)
                && (host.lapses == old(host.lapses) ==>
                      d.dirs == old(host.dirs) || (d.links == host.links && Pruned(host.links, old(host.dirs), d.dirs)))
    {
      var read := host.ReadState();
      if read.Failure? { return Failure(Preparing); }
      var oldState := read.value;
      var hadCore := host.links.core.current.Some? && host.links.core.current.value in host.dirs.core;
      var coreChanged, assetsChanged;
      r, coreChanged, assetsChanged := CommitInstall(p, identities, oldState);
      if r.Failure? { return; }
      r := ConfirmInstall(p, coreChanged, assetsChanged, oldState, hadCore);
    }

    /** Switch the pointers and write the state; if the write fails the pointers are put back. */
    method CommitInstall(p: Prepared, identities: set<string>, oldState: ManagerState)
      returns (r: Result<(), InstallStage>, coreChanged: bool, assetsChanged: bool)
      requires oldState == Loaded(host.state) && host.links == oldState.generations
      requires AllOrdered(host.links) && host.Recorded()
      requires p.core in host.dirs.core
      requires p.newConfig <==> host.links.config.current != Some(p.config)
      modifies host`links, host`lapses, host`refusals, host`history, host`state, host`faults
      ensures old(host.faults) <= host.faults && (r.Failure? <==> old(host.faults) < host.faults)
      ensures LinksReach(oldState.generations, p, host.links)
      ensures old(host.lapses) <= host.lapses && host.refusals == old(host.refusals)
      ensures r.Success? ==>
                && host.state == Some(InstalledState(oldState, p, identities, backends))
                && host.links.core.current == Some(p.core) && host.links.assets.current == Some(p.assets)
                && host.links.config.current == Some(p.config)
                && (!coreChanged ==> host.links.core == oldState.generations.core)
                && (!assetsChanged ==> host.links.assets == oldState.generations.assets)
                && (!p.newConfig ==> host.links.config == oldState.generations.config)
      ensures r.Failure? ==>
                && r.at in {Preparing, Owning, Switching, WritingState}
                && (host.state == old(host.state) ||
                    (r.at == WritingState && host.state == Some(InstalledState(oldState, p, identities, backends))))
      ensures host.lapses == old(host.lapses) ==>
                if r.Success? then host.links == AdvanceAll(oldState.generations, p)
                else host.links == oldState.generations && Loaded(host.state).generations == oldState.generations
      ensures host.Continues(old(host.history))
      ensures forall i :: |old(host.history)| <= i < |host.history| ==>
                var d := host.history[i];
                d.dirs == host.dirs && InstallCrash(oldState.generations, oldState, p, identities, backends, d)
    {
      r, coreChanged, assetsChanged := SwitchChanged(p, oldState);
      if r.Failure? { return; }
      var ok := WriteInstalled(p, identities);
      if !ok {
        ok := UndoInstall(p, coreChanged, assetsChanged, oldState, false);
        r := Failure(WritingState);
      }
    }

    /** Activate and stamp what was just switched and written, or undo it. */
    method ConfirmInstall(p: Prepared, coreChanged: bool, assetsChanged: bool, oldState: ManagerState,
                          hadCore: bool)
      returns (r: Result<(), InstallStage>)
      requires LinksReach(oldState.generations, p, host.links) && host.Recorded()
      requires !coreChanged ==> host.links.core == oldState.generations.core
      requires !assetsChanged ==> host.links.assets == oldState.generations.assets
      requires !p.newConfig ==> host.links.config == oldState.generations.config
      modifies host`links, host`lapses, host`refusals, host`history, host`state, host`dirs
      modifies host`faults, host`signals, host`process, host`shortfalls
      ensures r.Success? || r == Failure(HealthStamp) ==>
                InstallSignalled(r.Success?, old(host.signals), old(host.process), oldState.selectedNode.Some?)
      ensures r == Failure(Activating) && hadCore ==>
                RestartedLast(old(host.signals))
      ensures old(host.faults) <= host.faults && (r.Failure? <==> old(host.faults) < host.faults)
      ensures Fewer(old(host.dirs), host.dirs) && (r.Failure? ==> host.dirs == old(host.dirs))
      ensures old(host.lapses) <= host.lapses
      ensures host.refusals == old(host.refusals) + if r == Failure(Compensating) then 1 else 0
      ensures r.Failure? ==> r.at in {Activating, Compensating, HealthStamp}
      ensures r.Success? || r == Failure(HealthStamp) ==>
                && host.links == old(host.links)
                && (host.state == old(host.state) ||
                    (oldState.selectedNode.Some? && IsStamped(old(Loaded(host.state)), Loaded(host.state))))
      ensures r.Success? ==>
                (if oldState.selectedNode.Some? then IsStamped(old(Loaded(host.state)), Loaded(host.state))
                 else host.state == old(host.state))
      ensures r == Failure(HealthStamp) ==> oldState.selectedNode.Some?
      ensures r.Success? && host.lapses == old(host.lapses) ==> Pruned(host.links, old(host.dirs), host.dirs)
      ensures r == Failure(Activating) ==> host.state == Some(oldState)
      ensures r == Failure(Activating) || r == Failure(Compensating) ==>
                && LinksReach(oldState.generations, p, host.links)
                && (host.state == old(host.state) || host.state == Some(oldState))
                && (host.lapses == old(host.lapses) ==>
                      host.links == oldState.generations && Loaded(host.state) == oldState)
      ensures host.Continues(old(host.history))
      ensures forall i :: |old(host.history)| <= i < |host.history| ==>
                var d := host.history[i];
                && LinksReach(oldState.generations, p, d.links)
                && (|| d.state == old(host.state) || d.state == Some(oldState)
                    || IsStamped(old(Loaded(host.state)), Loaded(d.state)))
                && (r.Failure? ==> d.dirs == host.dirs)
                && (r.Success? && host.lapses == old(host.lapses) ==>
                      d.dirs == old(host.dirs) || (d.links == host.links && Pruned(host.links, old(host.dirs), d.dirs)))
    {
      var ok := Activate(oldState.selectedNode.Some?);
      if !ok {
        ok := UndoInstall(p, coreChanged, assetsChanged, oldState, true);
        if !ok { return Failure(Compensating); }
        if hadCore {
          var _ := host.RestartService();
        } else {
          host.BestEffort(StopPolicy);
          host.BestEffort(PolicyOff);
        }
        return Failure(Activating);
      }
      if oldState.selectedNode.Some? {
        ok := StampHealth();
        if !ok { return Failure(HealthStamp); }
      }
      PruneAll();
      return Success(());
    }

    /** Restore the pointers, whatever that reports, and after a failed activation write the old state again. */
    method UndoInstall(p: Prepared, coreChanged: bool, assetsChanged: bool, oldState: ManagerState, rewrite: bool)
      returns (ok: bool)
      requires LinksReach(oldState.generations, p, host.links) && host.Recorded()
      requires !coreChanged ==> host.links.core == oldState.generations.core
      requires !assetsChanged ==> host.links.assets == oldState.generations.assets
      requires !p.newConfig ==> host.links.config == oldState.generations.config
      modifies host`links, host`lapses, host`refusals, host`history, host`state, host`faults
      ensures old(host.faults) <= host.faults
      ensures LinksReach(oldState.generations, p, host.links)
      ensures host.state == old(host.state) || (rewrite && host.state == Some(oldState))
      ensures rewrite && ok ==> host.state == Some(oldState)
      ensures old(host.lapses) <= host.lapses
      ensures host.refusals == old(host.refusals) + if rewrite && !ok then 1 else 0
      ensures host.lapses == old(host.lapses) ==>
                host.links == oldState.generations && (rewrite ==> Loaded(host.state) == oldState)
      ensures host.Continues(old(host.history))
      ensures forall i :: |old(host.history)| <= i < |host.history| ==>
                var d := host.history[i];
                && LinksReach(oldState.generations, p, d.links) && d.dirs == host.dirs
                && (d.state == old(host.state) || d.state == host.state)
    {
      RestoreAll(p, coreChanged, assetsChanged, p.newConfig, oldState.generations);
      ok := true;
      if rewrite {
        ok := host.WriteState(oldState, Undo);
      }
    }

    /** A failed write may still have stamped. */
    method StampHealth() returns (ok: bool)
      requires host.Recorded()
      modifies host`state, host`lapses, host`refusals, host`history, host`faults
      ensures old(host.faults) <= host.faults && (!ok <==> old(host.faults) < host.faults)
      ensures host.lapses == old(host.lapses) && host.refusals == old(host.refusals)
      ensures host.state == old(host.state) || IsStamped(old(Loaded(host.state)), Loaded(host.state))
      ensures ok ==> IsStamped(old(Loaded(host.state)), Loaded(host.state))
      ensures host.history in {old(host.history), old(host.history) + [host.OnDisk()]} && host.Recorded()
    {
      var read := host.ReadState();
      if read.Failure? { return false; }
      var now: nat := *;
      ok := host.WriteState(Stamped(read.value, Some(now)), Record);
    }

    /** Identities and groups; each one that had to be created is recorded at once. */
    method ApplyInstallActions(identities: seq<string>) returns (r: Result<set<string>, InstallStage>)
      requires host.Recorded()
      modifies host`state, host`identities, host`lapses, host`refusals, host`history, host`faults
      ensures r.Success? ==> host.identities - old(host.identities) <= Loaded(host.state).createdIdentities
      ensures old(host.faults) <= host.faults && (r.Failure? <==> old(host.faults) < host.faults)
      ensures host.lapses == old(host.lapses) && host.refusals == old(host.refusals)
      ensures host.Continues(old(host.history))
      ensures forall i :: |old(host.history)| <= i < |host.history| ==>
                && host.history[i] == host.OnDisk().(state := host.history[i].state)
                && IdentitiesRecorded(old(Loaded(host.state)), Loaded(host.history[i].state))
      ensures r.Success? ==> r.value <= Loaded(host.state).createdIdentities
      ensures r.Failure? ==> r.at == Preparing
      ensures IdentitiesRecorded(old(Loaded(host.state)), Loaded(host.state))
    {
      var created: set<string> := {};
      for i := 0 to |identities|
        invariant created <= Loaded(host.state).createdIdentities
        invariant host.identities - old(host.identities) <= created
        invariant IdentitiesRecorded(old(Loaded(host.state)), Loaded(host.state))
        invariant host.lapses == old(host.lapses) && host.refusals == old(host.refusals)
        invariant host.faults == old(host.faults)
        invariant host.Continues(old(host.history))
        invariant forall k :: |old(host.history)| <= k < |host.history| ==>
                    && host.history[k] == host.OnDisk().(state := host.history[k].state)
                    && IdentitiesRecorded(old(Loaded(host.state)), Loaded(host.history[k].state))
      {
        var ok, existed := host.EnsureIdentity(identities[i]);
        if !ok { return Failure(Preparing); }
        if !existed {
          var read := host.ReadState();
          if read.Failure? { return Failure(Preparing); }
          ok := host.WriteState(read.value.(createdIdentities := read.value.createdIdentities + {identities[i]},
                                            installedBackends := backends), Record);
          if !ok { return Failure(Preparing); }
          created := created + {identities[i]};
        }
      }
      var ok := host.Attempt(); // units, binary, defaults, ownership
      return if ok then Success(created) else Failure(Preparing);
    }

    /** Choose or build the core, assets and configuration to activate; the triple has been tested together. */
    method SelectArtifacts(repair: bool, tag: string, content: nat, assetCount: nat, coreAnswers: bool,
                           assetsValid: bool)
      returns (r: Result<Prepared, InstallStage>)
      requires host.Ready()
      modifies host`dirs, host`serial, host`lapses, host`history
      modifies host`staged, host`answered, host`tested, host`validated, host`faults
      ensures old(host.faults) <= host.faults
      ensures r.Failure? ==> old(host.faults) < host.faults || !ValidTag(tag)
      ensures r.Success? ==> host.faults == old(host.faults)
      ensures old(host.lapses) <= host.lapses && (r.Success? ==> host.lapses == old(host.lapses))
      ensures host.lapses == old(host.lapses) ==> host.Agrees()
      ensures r.Success? ==> SelectionSound(r.value)
      ensures r.Failure? ==> r.at in {Preparing, Validating}
      ensures host.Agrees() ==> host.Ready() && Housekeeping(old(host.Snap()), host.Snap())
      ensures DirsKept(old(host.dirs), Release(tag), host.dirs)
      ensures host.Continues(old(host.history))
      ensures forall i :: |old(host.history)| <= i < |host.history| ==>
                && host.history[i] == host.OnDisk().(dirs := host.history[i].dirs)
                && DirsKept(old(host.dirs), Release(tag), host.history[i].dirs)
      ensures r.Success? && !repair ==> r.value.core == Release(tag)
      ensures r.Success? && repair && coreAnswers && host.links.core.current.Some? ==>
                Some(r.value.core) == host.links.core.current
      ensures r.Success? && repair && assetsValid && host.links.assets.current.Some? ==>
                Some(r.value.assets) == host.links.assets.current
      ensures r.Success? && host.links.config.current.Some? ==> !r.value.newConfig
    {
      var read := host.ReadState();
      if read.Failure? { return Failure(Preparing); }
      ghost var s0 := host.Snap();
      var core := SelectCore(repair, read.value, tag, content, coreAnswers);
      if core.Failure? { return Failure(core.at); }
      ghost var s1 := host.Snap();
      r := SelectOthers(repair, read.value, core.value, assetCount, assetsValid);
      HousekeepingTwice(s0, s1, host.Snap());
    }

    /** Assets and configuration to go with a core. */
    method SelectOthers(repair: bool, existing: ManagerState, core: Name, assetCount: nat, assetsValid: bool)
      returns (r: Result<Prepared, InstallStage>)
      requires host.Ready() && existing == Loaded(host.state) && core in host.dirs.core
      modifies host`dirs, host`serial, host`history, host`tested, host`validated, host`faults
      ensures old(host.faults) <= host.faults && (r.Failure? <==> old(host.faults) < host.faults)
      ensures host.dirs.core == old(host.dirs).core
      ensures old(host.dirs).assets.Keys <= host.dirs.assets.Keys
      ensures old(host.dirs).config.Keys <= host.dirs.config.Keys
      ensures host.Continues(old(host.history))
      ensures forall i :: |old(host.history)| <= i < |host.history| ==>
                && host.history[i] == host.OnDisk().(dirs := host.history[i].dirs)
                && old(host.dirs).core == host.history[i].dirs.core
                && old(host.dirs).assets.Keys <= host.history[i].dirs.assets.Keys
                && old(host.dirs).config.Keys <= host.history[i].dirs.config.Keys
      ensures host.Ready() && Housekeeping(old(host.Snap()), host.Snap())
      ensures r.Success? ==> r.value.core == core && SelectionSound(r.value)
      ensures r.Failure? ==> r.at in {Preparing, Validating}
      ensures r.Success? && repair && assetsValid && host.links.assets.current.Some? ==>
                Some(r.value.assets) == host.links.assets.current
      ensures r.Success? && host.links.config.current.Some? ==> !r.value.newConfig
    {
      ghost var s0 := host.Snap();
      var assets := SelectAssets(repair, existing, assetCount, assetsValid);
      if assets.Failure? { return Failure(assets.at); }
      ghost var s1 := host.Snap();
      r := SelectConfig(existing, core, assets.value);
      HousekeepingTwice(s0, s1, host.Snap());
    }

    method SelectCore(repair: bool, existing: ManagerState, tag: string, content: nat, coreAnswers: bool)
      returns (r: Result<Name, InstallStage>)
      requires host.Ready() && existing == Loaded(host.state)
      modifies host`dirs, host`serial, host`lapses, host`history, host`staged, host`answered, host`tested, host`faults
      ensures old(host.faults) <= host.faults
      ensures r.Failure? ==> old(host.faults) < host.faults || !ValidTag(tag)
      ensures r.Success? ==> host.faults == old(host.faults)
      ensures host.dirs == old(host.dirs).(core := host.dirs.core)
      ensures DirsKept(old(host.dirs), Release(tag), host.dirs)
      ensures old(host.lapses) <= host.lapses && (r.Success? ==> host.lapses == old(host.lapses))
      ensures host.lapses == old(host.lapses) ==> host.Agrees()
      ensures host.Agrees() ==> host.Ready() && Housekeeping(old(host.Snap()), host.Snap())
      ensures r.Success? ==> r.value in host.dirs.core
      ensures host.Continues(old(host.history))
      ensures forall i :: |old(host.history)| <= i < |host.history| ==>
                && host.history[i] == host.OnDisk().(dirs := host.history[i].dirs)
                && DirsKept(old(host.dirs), Release(tag), host.history[i].dirs)
      ensures r.Success? && !repair ==> r.value == Release(tag)
      ensures r.Failure? ==> r.at in {Preparing, Validating}
      ensures r.Success? && repair && coreAnswers && host.links.core.current.Some? ==>
                Some(r.value) == host.links.core.current
    {
      ghost var before := host.Snap();
      if repair {
        var reusable := ReusableCore(existing, coreAnswers);
        if reusable.Some? { return Success(reusable.value); }
      }
      r := PrepareCore(tag, content);
      if host.Agrees() || host.lapses == old(host.lapses) {
        CoresKept(before, host.Snap(), Release(tag));
      }
    }

    method SelectAssets(repair: bool, existing: ManagerState, assetCount: nat, assetsValid: bool)
      returns (r: Result<Name, InstallStage>)
      requires host.Ready() && existing == Loaded(host.state)
      modifies host`dirs, host`serial, host`history, host`faults
      ensures old(host.faults) <= host.faults && (r.Failure? <==> old(host.faults) < host.faults)
      ensures host.dirs == old(host.dirs).(assets := host.dirs.assets)
      ensures old(host.dirs).assets.Keys <= host.dirs.assets.Keys
      ensures host.Continues(old(host.history))
      ensures forall i :: |old(host.history)| <= i < |host.history| ==>
                && host.history[i] == host.OnDisk().(dirs := host.history[i].dirs)
                && old(host.dirs).core == host.history[i].dirs.core
                && old(host.dirs).assets.Keys <= host.history[i].dirs.assets.Keys
                && old(host.dirs).config.Keys <= host.history[i].dirs.config.Keys
      ensures host.Ready() && Housekeeping(old(host.Snap()), host.Snap())
      ensures r.Success? ==> r.value in host.dirs.assets
      ensures r.Failure? ==> r.at in {Preparing, Validating}
      ensures r.Success? && repair && assetsValid && host.links.assets.current.Some? ==>
                Some(r.value) == host.links.assets.current
      ensures r.Success? && !repair ==> Some(r.value) != host.links.assets.current
    {
      ghost var before := host.Snap();
      if repair {
        var reusable := ReusableAssets(existing, assetsValid);
        if reusable.Some? { return Success(reusable.value); }
      }
      r := PrepareAssets(assetCount);
      GenerationsKept(before, host.Snap());
    }

    method SelectConfig(existing: ManagerState, core: Name, assets: Name) returns (r: Result<Prepared, InstallStage>)
      requires host.Ready() && existing == Loaded(host.state)
      requires core in host.dirs.core && assets in host.dirs.assets
      modifies host`dirs, host`serial, host`history, host`tested, host`validated, host`faults
      ensures old(host.faults) <= host.faults && (r.Failure? <==> old(host.faults) < host.faults)
      ensures host.Continues(old(host.history))
      ensures forall i :: |old(host.history)| <= i < |host.history| ==>
                && host.history[i] == host.OnDisk().(dirs := host.history[i].dirs)
                && old(host.dirs).core == host.history[i].dirs.core
                && old(host.dirs).assets.Keys <= host.history[i].dirs.assets.Keys
                && old(host.dirs).config.Keys <= host.history[i].dirs.config.Keys
      ensures host.Ready() && Housekeeping(old(host.Snap()), host.Snap())
      ensures r.Success? ==> r.value.core == core && r.value.assets == assets && SelectionSound(r.value)
      ensures r.Failure? ==> r.at in {Preparing, Validating}
      ensures r.Success? && host.links.config.current.Some? ==> !r.value.newConfig
    {
      ghost var before := host.Snap();
      var current := existing.generations.config.current;
      if current.Some? && host.links.config.current.Some? && host.links.config.current.value in host.dirs.config {
        var ok := host.TestConfig(Some(core), Some(assets), host.links.config.current.value);
        if !ok { return Failure(Validating); }
        return Success(Prepared(core, assets, current.value, false));
      }
      var initial := PrepareInitialConfig(core, assets);
      GenerationsKept(before, host.Snap());
      if initial.Failure? { return Failure(initial.at); }
      return Success(Prepared(core, assets, initial.value, true));
    }

    /** What `ActivateInstall` relies on. */
    ghost predicate SelectionSound(p: Prepared)
      reads host
    {
      && p.core in host.dirs.core && p.assets in host.dirs.assets && p.config in host.dirs.config
      && p.config in host.validated
      && (p.newConfig <==> host.links.config.current != Some(p.config))
      && Triple(Some(p.core), Some(p.assets), p.config) in host.tested
    }

    /** Everything before the first pointer moves. */
    method PrepareInstall(repair: bool, identities: seq<string>, tag: string, content: nat, assetCount: nat,
                          coreAnswers: bool, assetsValid: bool)
      returns (r: Result<Prepared, InstallStage>, created: set<string>)
      requires host.Ready()
      modifies host`state, host`identities, host`dirs, host`serial, host`lapses, host`refusals, host`history
      modifies host`staged, host`answered, host`tested, host`validated, host`faults
      ensures old(host.faults) <= host.faults
      ensures r.Failure? ==> old(host.faults) < host.faults || !ValidTag(tag)
      ensures r.Success? ==> host.faults == old(host.faults)
      ensures old(host.lapses) <= host.lapses && (r.Success? ==> host.lapses == old(host.lapses))
      ensures host.lapses == old(host.lapses) ==> host.Agrees()
      ensures host.refusals == old(host.refusals)
      ensures host.Agrees() ==> host.Ready() && Idle(old(host.Snap()), host.Snap())
      ensures IdentitiesRecorded(old(Loaded(host.state)), Loaded(host.state))
      ensures r.Failure? ==> r.at in {Preparing, Validating}
      ensures r.Success? ==> host.identities - old(host.identities) <= Loaded(host.state).createdIdentities
      ensures r.Success? ==> SelectionSound(r.value) && DirsKept(old(host.dirs), Release(tag), host.dirs)
      ensures host.Continues(old(host.history))
      ensures forall i :: |old(host.history)| <= i < |host.history| ==>
                var d := host.history[i];
                && d.links == old(host.links) && IdentitiesRecorded(old(Loaded(host.state)), Loaded(d.state))
                && DirsKept(old(host.dirs), Release(tag), d.dirs)
      ensures r.Success? && !repair ==> r.value.core == Release(tag)
      ensures r.Success? && repair && coreAnswers && host.links.core.current.Some? ==>
                Some(r.value.core) == host.links.core.current
      ensures r.Success? && repair && assetsValid && host.links.assets.current.Some? ==>
                Some(r.value.assets) == host.links.assets.current
      ensures r.Success? && host.links.config.current.Some? ==> !r.value.newConfig
    {
      ghost var s0 := host.Snap();
      created := {};
      var recorded := ApplyInstallActions(identities);
      HousekeepingIsIdle(s0, host.Snap());
      if recorded.Failure? { return Failure(recorded.at), created; }
      created := recorded.value;
      ghost var s1 := host.Snap();
      r := SelectArtifacts(repair, tag, content, assetCount, coreAnswers, assetsValid);
      if host.Agrees() {
        HousekeepingIsIdle(s1, host.Snap());
        IdleTwice(s0, s1, host.Snap());
      }
    }

    /**
     `install` and `repair`. Whatever the faults, a crash leaves each pair within its switch and
     the generation fields all old or all new. If no call lapsed, a crash leaves no pointer without
     its directory, except that a core version being replaced is missing for a moment.
     */
    method InstallOrRepair(repair: bool, identities: seq<string>, tag: string, content: nat, assetCount: nat,
                           coreAnswers: bool, assetsValid: bool)
      returns (r: Result<(), InstallStage>, ghost plan: Prepared)
      requires host.Ready()
      modifies host
      ensures InstalledFields(r, old(Loaded(host.state)), backends, Loaded(host.state))
      ensures r.Success? ==>
                (host.process == Some(ActiveProcess(host.links)) <==>
                 old(host.process).None? || old(host.process) == Some(ActiveProcess(host.links)))
      ensures r.Success? || r == Failure(HealthStamp) ==>
                InstallSignalled(r.Success?, old(host.signals), old(host.process),
                                 old(Loaded(host.state)).selectedNode.Some?)
      ensures old(host.faults) <= host.faults
      ensures r.Failure? ==> old(host.faults) < host.faults || !ValidTag(tag)
      ensures r.Success? ==> host.faults == old(host.faults)
      ensures host.refusals == old(host.refusals) + if r == Failure(Compensating) then 1 else 0
      ensures old(host.lapses) <= host.lapses
      ensures host.lapses == old(host.lapses) ==>
                && host.Agrees()
                && (if r.Success? || r == Failure(HealthStamp)
                    then host.links == AdvanceAll(old(host.links), plan)
                    else host.links == old(host.links) && Fields(host.Snap()) == Fields(old(host.Snap())))
      ensures host.Agrees() ==> host.Ready() && InstallEnds(r, old(host.Snap()), host.Snap())
      ensures r.Success? ==> host.ActiveTested()
      ensures r.Success? && !repair ==> host.links.core.current == Some(Release(tag))
      ensures host.lapses == old(host.lapses) && r.Success? && repair && coreAnswers && assetsValid &&
              old(host.links).core.current.Some? && old(host.links).assets.current.Some?
                && old(host.links).config.current.Some? ==>
                host.links == old(host.links) && Fields(host.Snap()) == Fields(old(host.Snap()))
      ensures host.Continues(old(host.history))
      ensures forall i :: |old(host.history)| <= i < |host.history| ==>
                && LinksReach(old(host.links), plan, host.history[i].links)
                && OldOrAdvanced(old(Loaded(host.state)).generations, plan, Loaded(host.history[i].state).generations)
      ensures host.lapses == old(host.lapses) ==>
                forall i :: |old(host.history)| <= i < |host.history| ==>
                  || Standing(host.history[i])
                  || (host.history[i].links == old(host.links) && StandingBut(Release(tag), host.history[i]))
    {
      plan := Prepared(Release(""), Release(""), Release(""), false);
      ghost var s0 := host.Snap();
      var selected, created := PrepareInstall(repair, identities, tag, content, assetCount, coreAnswers, assetsValid);
      if selected.Success? {
        plan := selected.value;
      }
      InstallWaiting(s0, Release(tag), plan, host.history, |old(host.history)|);
      if selected.Failure? {
        InstallWaits(selected.at, s0, host.Snap());
        return Failure(selected.at), plan;
      }
      r := FinishInstall(s0, selected.value, created);
      StartedIff(old(host.process), ActiveProcess(host.links));
    }

    /** The part of an install that moves something, from where the preparation left the host. */
    method FinishInstall(ghost s0: Snapshot, p: Prepared, created: set<string>)
      returns (r: Result<(), InstallStage>)
      requires host.Ready() && SelectionSound(p)
      requires Inv(s0) && Idle(s0, host.Snap()) && IdentitiesRecorded(Loaded(s0.state), Loaded(host.state))
      modifies host`links, host`lapses, host`refusals, host`history, host`state, host`dirs
      modifies host`faults, host`signals, host`process, host`shortfalls
      ensures InstalledFields(r, Loaded(s0.state), backends, Loaded(host.state))
      ensures r.Success? || r == Failure(HealthStamp) ==>
                InstallSignalled(r.Success?, old(host.signals), old(host.process),
                                 old(Loaded(host.state)).selectedNode.Some?)
      ensures old(host.faults) <= host.faults && (r.Failure? <==> old(host.faults) < host.faults)
      ensures host.refusals == old(host.refusals) + if r == Failure(Compensating) then 1 else 0
      ensures old(host.lapses) <= host.lapses
      ensures host.lapses == old(host.lapses) ==>
                && host.Agrees()
                && host.links == if r.Success? || r == Failure(HealthStamp) then AdvanceAll(old(host.links), p)
                                 else old(host.links)
      ensures host.Agrees() ==> host.Ready() && InstallEnds(r, s0, host.Snap())
      ensures r.Success? ==> host.ActiveTested()
      ensures r.Success? ==> host.links.core.current == Some(p.core)
      ensures host.Continues(old(host.history))
      ensures forall i :: |old(host.history)| <= i < |host.history| ==>
                && LinksReach(old(host.links), p, host.history[i].links)
                && OldOrAdvanced(old(Loaded(host.state)).generations, p, Loaded(host.history[i].state).generations)
      ensures host.lapses == old(host.lapses) ==>
                forall i :: |old(host.history)| <= i < |host.history| ==> Standing(host.history[i])
    {
      ghost var s2 := host.Snap();
      r := ActivateInstall(p, created);
      if host.lapses == old(host.lapses) {
        CrashesStand(s2, p, created, backends, host.links, host.history, |old(host.history)|);
      }
      InstallFinishes(r, s0, s2, p, created, backends, host.Snap());
    }

    /** `upgrade core|assets|all`, with the same promises about crashes. */
    method ApplyUpgrade(wantCore: bool, wantAssets: bool, tag: string, content: nat, assetCount: nat)
      returns (r: Result<(), InstallStage>, ghost newCore: Option<Name>, ghost newAssets: Option<Name>)
      requires host.Ready()
      modifies host
      ensures Loaded(host.state) == old(Loaded(host.state)).(generations := Loaded(host.state).generations)
      ensures r.Success? && host.links == old(host.links) ==> host.signals == old(host.signals)
      ensures r.Success? && host.links != old(host.links) ==>
                UpgradeSignalled(true, old(host.signals), old(Loaded(host.state)).selectedNode.Some?)
      ensures old(host.faults) <= host.faults
      ensures r.Failure? ==>
                || old(host.faults) < host.faults
                || old(host.links).config.current.None? || (wantCore && !ValidTag(tag))
      ensures r.Success? ==> host.faults == old(host.faults)
      ensures host.refusals == old(host.refusals) + if r == Failure(Compensating) then 1 else 0
      ensures old(host.lapses) <= host.lapses
      ensures host.lapses == old(host.lapses) ==>
                && host.Agrees()
                && (r.Failure? ==> host.links == old(host.links) && Loaded(host.state) == old(Loaded(host.state)))
      ensures host.Agrees() ==> host.Ready() && UpgradeEnds(r, old(host.Snap()), host.Snap())
      ensures r.Success? && host.links != old(host.links) ==> host.ActiveTested()
      ensures r.Success? && wantAssets ==> host.links.assets.current != old(host.links).assets.current
      ensures r.Success? && wantCore ==> host.links.core.current == Some(Release(tag))
      ensures !wantCore ==> host.links.core == old(host.links).core
      ensures !wantAssets ==> host.links.assets == old(host.links).assets
      ensures host.Continues(old(host.history))
      ensures forall i :: |old(host.history)| <= i < |host.history| ==>
                && UpgradeReach(old(host.links), newCore, newAssets, host.history[i].links)
                && UpgradeStates(old(Loaded(host.state)), newCore, newAssets, Loaded(host.history[i].state))
      ensures host.lapses == old(host.lapses) ==>
                forall i :: |old(host.history)| <= i < |host.history| ==>
                  || Standing(host.history[i])
                  || (host.history[i].links == old(host.links) && StandingBut(Release(tag), host.history[i]))
    {
      ghost var s0 := host.Snap();
      var state, core, assets;
      r, state, core, assets := PrepareUpgrade(wantCore, wantAssets, tag, content, assetCount);
      newCore, newAssets := core, assets;
      UpgradeWaiting(s0, Release(tag), core, assets, host.history, |old(host.history)|);
      if r.Failure? || (core.None? && assets.None?) {
        UpgradeWaits(r, s0, host.Snap());
        return;
      }
      r := FinishUpgrade(s0, state, core, assets);
    }

    /** The part of an upgrade that moves something, from where the preparation left the host. */
    method FinishUpgrade(ghost s0: Snapshot, state: ManagerState, newCore: Option<Name>, newAssets: Option<Name>)
      returns (r: Result<(), InstallStage>)
      requires host.Ready() && state == Loaded(host.state)
      requires Inv(s0) && Idle(s0, host.Snap()) && s0.state == host.state
      requires newCore.Some? ==> newCore.value in host.dirs.core && newCore != host.links.core.current
      requires newAssets.Some? ==> newAssets.value in host.dirs.assets && newAssets != host.links.assets.current
      modifies host`links, host`lapses, host`refusals, host`history, host`state, host`dirs
      modifies host`faults, host`signals, host`process, host`shortfalls
      ensures Loaded(host.state) == state.(generations := Loaded(host.state).generations)
      ensures r.Success? ==> UpgradeSignalled(true, old(host.signals), state.selectedNode.Some?)
      ensures r == Failure(Activating) ==>
                RestartedLast(old(host.signals))
      ensures old(host.faults) <= host.faults && (r.Failure? <==> old(host.faults) < host.faults)
      ensures host.refusals == old(host.refusals) + if r == Failure(Compensating) then 1 else 0
      ensures old(host.lapses) <= host.lapses
      ensures host.lapses == old(host.lapses) ==>
                && host.Agrees()
                && (r.Failure? ==> host.links == old(host.links) && Loaded(host.state) == state)
      ensures host.Agrees() ==> host.Ready() && UpgradeEnds(r, s0, host.Snap())
      ensures UpgradeReach(old(host.links), newCore, newAssets, host.links)
      ensures r.Success? ==>
                && (newCore.Some? ==> host.links.core.current == newCore)
                && (newAssets.Some? ==> host.links.assets.current == newAssets)
      ensures host.Continues(old(host.history))
      ensures forall i :: |old(host.history)| <= i < |host.history| ==>
                && UpgradeReach(old(host.links), newCore, newAssets, host.history[i].links)
                && UpgradeStates(state, newCore, newAssets, Loaded(host.history[i].state))
      ensures host.lapses == old(host.lapses) ==>
                forall i :: |old(host.history)| <= i < |host.history| ==> Standing(host.history[i])
    {
      ghost var s1 := host.Snap();
      r := ActivateUpgrade(state, newCore, newAssets);
      if host.lapses == old(host.lapses) {
        UpgradedAgrees(r, s1, newCore, newAssets, host.Snap());
        UpgradeCrashesStand(s1, newCore, newAssets, host.links, host.history, |old(host.history)|);
      }
      UpgradeIsLegal(r, s0, s1, newCore, newAssets, host.Snap());
    }

    /** Build the wanted artifacts and test them with the active configuration. */
    method PrepareUpgrade(wantCore: bool, wantAssets: bool, tag: string, content: nat, assetCount: nat)
      returns (r: Result<(), InstallStage>, state: ManagerState, newCore: Option<Name>, newAssets: Option<Name>)
      requires host.Ready()
      modifies host`dirs, host`serial, host`lapses, host`history
      modifies host`staged, host`answered, host`tested, host`validated, host`faults
      ensures old(host.faults) <= host.faults
      ensures r.Failure? ==>
                || old(host.faults) < host.faults
                || old(host.links).config.current.None? || (wantCore && !ValidTag(tag))
      ensures r.Success? ==> host.faults == old(host.faults)
      ensures old(host.lapses) <= host.lapses && (r.Success? ==> host.lapses == old(host.lapses))
      ensures host.lapses == old(host.lapses) ==> host.Agrees()
      ensures DirsKept(old(host.dirs), Release(tag), host.dirs)
      ensures host.Agrees() ==> host.Ready() && Idle(old(host.Snap()), host.Snap())
      ensures host.Continues(old(host.history))
      ensures forall i :: |old(host.history)| <= i < |host.history| ==>
                && host.history[i] == host.OnDisk().(dirs := host.history[i].dirs)
                && DirsKept(old(host.dirs), Release(tag), host.history[i].dirs)
      ensures r.Failure? ==> r.at in {Preparing, Validating}
      ensures r.Success? ==> UpgradeBuilt(state, wantCore, wantAssets, tag, newCore, newAssets)
      ensures r.Success? && (newCore.Some? || newAssets.Some?) ==>
                Triple(if newCore.Some? then newCore else host.links.core.current,
                       if newAssets.Some? then newAssets else host.links.assets.current,
                       host.links.config.current.value) in host.tested
    {
      ghost var s0 := host.Snap();
      r, state, newCore, newAssets := BuildUpgrade(wantCore, wantAssets, tag, content, assetCount);
      if r.Failure? || (newCore.None? && newAssets.None?) { return; }
      ghost var s1 := host.Snap();
      var ok := host.TestConfig(if newCore.Some? then newCore else host.links.core.current,
                                if newAssets.Some? then newAssets else host.links.assets.current,
                                host.links.config.current.value);
      ValidatedIsIdle(s0, s1, host.Snap());
      if !ok { r := Failure(Validating); }
    }

    ghost predicate UpgradeBuilt(state: ManagerState, wantCore: bool, wantAssets: bool, tag: string,
                                 newCore: Option<Name>, newAssets: Option<Name>)
      reads host
    {
      && state == Loaded(host.state) && host.links.config.current.Some?
      && (newCore.Some? ==> newCore == Some(Release(tag)) && newCore.value in host.dirs.core)
      && (newCore.Some? <==> wantCore && host.links.core.current != Some(Release(tag)))
      && (newAssets.Some? <==> wantAssets)
      && (newAssets.Some? ==> newAssets.value in host.dirs.assets && newAssets != host.links.assets.current)
    }

    method BuildUpgrade(wantCore: bool, wantAssets: bool, tag: string, content: nat, assetCount: nat)
      returns (r: Result<(), InstallStage>, state: ManagerState, newCore: Option<Name>, newAssets: Option<Name>)
      requires host.Ready()
      modifies host`dirs, host`serial, host`lapses, host`history, host`staged, host`answered, host`tested, host`faults
      ensures old(host.faults) <= host.faults
      ensures r.Failure? ==>
                || old(host.faults) < host.faults
                || old(host.links).config.current.None? || (wantCore && !ValidTag(tag))
      ensures r.Success? ==> host.faults == old(host.faults)
      ensures old(host.lapses) <= host.lapses && (r.Success? ==> host.lapses == old(host.lapses))
      ensures host.lapses == old(host.lapses) ==> host.Agrees()
      ensures DirsKept(old(host.dirs), Release(tag), host.dirs)
      ensures host.Agrees() ==> host.Ready() && Idle(old(host.Snap()), host.Snap())
      ensures host.Continues(old(host.history))
      ensures forall i :: |old(host.history)| <= i < |host.history| ==>
                && host.history[i] == host.OnDisk().(dirs := host.history[i].dirs)
                && DirsKept(old(host.dirs), Release(tag), host.history[i].dirs)
      ensures r.Failure? ==> r.at in {Preparing, Validating}
      ensures r.Success? ==> UpgradeBuilt(state, wantCore, wantAssets, tag, newCore, newAssets)
    {
      ghost var s0 := host.Snap();
      newCore, newAssets, state := None, None, DEFAULT_STATE;
      r := Failure(Preparing);
      HousekeepingIsIdle(s0, s0);
      var read := host.ReadState();
      if read.Failure? { return; }
      state := read.value;
      if host.links.config.current.None? || host.links.config.current.value !in host.dirs.config { return; }
      var core := BuildCore(wantCore, state, tag, content);
      if core.Failure? { return; }
      newCore := core.value;
      if wantAssets {
        newAssets := BuildAssets(s0, state, assetCount);
        if newAssets.None? { return; }
      }
      r := Success(());
    }

    /** The release, if it is wanted and not active. */
    method BuildCore(wantCore: bool, state: ManagerState, tag: string, content: nat)
      returns (r: Result<Option<Name>, InstallStage>)
      requires host.Ready() && state == Loaded(host.state)
      modifies host`dirs, host`serial, host`lapses, host`history, host`staged, host`answered, host`tested, host`faults
      ensures old(host.faults) <= host.faults
      ensures r.Failure? ==> old(host.faults) < host.faults || (wantCore && !ValidTag(tag))
      ensures r.Success? ==> host.faults == old(host.faults)
      ensures host.dirs == old(host.dirs).(core := host.dirs.core)
      ensures old(host.lapses) <= host.lapses && (r.Success? ==> host.lapses == old(host.lapses))
      ensures host.lapses == old(host.lapses) ==> host.Agrees()
      ensures DirsKept(old(host.dirs), Release(tag), host.dirs)
      ensures host.Agrees() ==> host.Ready() && Idle(old(host.Snap()), host.Snap())
      ensures r.Success? ==>
                && (r.value.Some? <==> wantCore && host.links.core.current != Some(Release(tag)))
                && (r.value.Some? ==> r.value == Some(Release(tag)) && r.value.value in host.dirs.core)
      ensures host.Continues(old(host.history))
      ensures forall i :: |old(host.history)| <= i < |host.history| ==>
                && host.history[i] == host.OnDisk().(dirs := host.history[i].dirs)
                && DirsKept(old(host.dirs), Release(tag), host.history[i].dirs)
    {
      ghost var before := host.Snap();
      HousekeepingIsIdle(before, before);
      if !wantCore { return Success(None); }
      var core := SelectCore(false, state, tag, content, false);
      if host.Agrees() {
        HousekeepingIsIdle(before, host.Snap());
      }
      if core.Failure? { return Failure(Preparing); }
      return Success(if state.generations.core.current == Some(core.value) then None else Some(core.value));
    }

    /** A new generation of assets, if it can be built. */
    method BuildAssets(ghost s0: Snapshot, state: ManagerState, assetCount: nat) returns (r: Option<Name>)
      requires host.Ready() && state == Loaded(host.state)
      requires Inv(s0) && Idle(s0, host.Snap())
      modifies host`dirs, host`serial, host`history, host`faults
      ensures old(host.faults) <= host.faults
      ensures r.None? <==> old(host.faults) < host.faults
      ensures host.dirs == old(host.dirs).(assets := host.dirs.assets)
      ensures old(host.dirs).assets.Keys <= host.dirs.assets.Keys
      ensures host.Ready() && Idle(s0, host.Snap())
      ensures r.Some? ==> r.value in host.dirs.assets && r != host.links.assets.current
      ensures host.Continues(old(host.history))
      ensures forall i :: |old(host.history)| <= i < |host.history| ==>
                && host.history[i] == host.OnDisk().(dirs := host.history[i].dirs)
                && old(host.dirs).core == host.history[i].dirs.core
                && old(host.dirs).assets.Keys <= host.history[i].dirs.assets.Keys
                && old(host.dirs).config.Keys <= host.history[i].dirs.config.Keys
    {
      ghost var before := host.Snap();
      var assets := SelectAssets(false, state, assetCount, false);
      HousekeepingIsIdle(before, host.Snap());
      IdleTwice(s0, before, host.Snap());
      r := if assets.Success? then Some(assets.value) else None;
    }

    /** Core first; if the assets fail, the core is restored. */
    method SwitchUpgrade(newCore: Option<Name>, newAssets: Option<Name>, wanted: Trio<Pair>) returns (ok: bool)
      requires host.links == wanted && host.Recorded()
      modifies host`links, host`lapses, host`refusals, host`history, host`faults
      ensures old(host.faults) <= host.faults && (!ok <==> old(host.faults) < host.faults)
      ensures UpgradeReach(wanted, newCore, newAssets, host.links)
      ensures ok ==>
                && (newCore.Some? ==> host.links.core.current == newCore)
                && (newAssets.Some? ==> host.links.assets.current == newAssets)
      ensures old(host.lapses) <= host.lapses && host.refusals == old(host.refusals)
      ensures host.lapses == old(host.lapses) ==>
                host.links == if ok then Upgraded(wanted, newCore, newAssets, true) else wanted
      ensures host.Continues(old(host.history))
      ensures forall i :: |old(host.history)| <= i < |host.history| ==>
                var d := host.history[i];
                d == host.OnDisk().(links := d.links) && UpgradeReach(wanted, newCore, newAssets, d.links)
    {
      ok := true;
      if newCore.Some? {
        ok := host.SwitchGeneration(Core, newCore.value);
        if !ok { return; }
      }
      if newAssets.Some? {
        ok := host.SwitchGeneration(Assets, newAssets.value);
        if !ok {
          RestoreUpgrade(newCore, newAssets, newCore.Some?, false, wanted);
        }
      }
    }

    /** Restore assets and core as far as they were switched, discarding errors. */
    method RestoreUpgrade(newCore: Option<Name>, newAssets: Option<Name>, core: bool, assets: bool, wanted: Trio<Pair>)
      requires UpgradeReach(wanted, newCore, newAssets, host.links) && host.Recorded()
      requires (core ==> newCore.Some?) && (assets ==> newAssets.Some?)
      modifies host`links, host`lapses, host`refusals, host`history
      ensures UpgradeReach(wanted, newCore, newAssets, host.links)
      ensures old(host.lapses) <= host.lapses && host.refusals == old(host.refusals)
      ensures host.lapses == old(host.lapses) ==>
                host.links == Trio(if core then wanted.core else old(host.links).core,
                                   if assets then wanted.assets else old(host.links).assets, wanted.config)
      ensures host.Continues(old(host.history))
      ensures forall i :: |old(host.history)| <= i < |host.history| ==>
                var d := host.history[i];
                d == host.OnDisk().(links := d.links) && UpgradeReach(wanted, newCore, newAssets, d.links)
    {
      if assets {
        RestoreStaysInReach(wanted.assets, newAssets.value, host.links.assets);
        var _ := host.RestoreGeneration(Assets, wanted.assets, false);
      }
      if core {
        RestoreStaysInReach(wanted.core, newCore.value, host.links.core);
        var _ := host.RestoreGeneration(Core, wanted.core, false);
      }
    }

    /**
     Switch, write the state, restart and check health; any failure, a state write that
     took effect included, puts pointers and state back, unless a call lapsed.
     */
    method ActivateUpgrade(state: ManagerState, newCore: Option<Name>, newAssets: Option<Name>)
      returns (r: Result<(), InstallStage>)
      requires state == Loaded(host.state) && host.links == state.generations && host.Recorded()
      modifies host`links, host`lapses, host`refusals, host`history, host`state, host`dirs
      modifies host`faults, host`signals, host`process, host`shortfalls
      ensures Loaded(host.state) == state.(generations := Loaded(host.state).generations)
      ensures r.Success? ==> UpgradeSignalled(true, old(host.signals), state.selectedNode.Some?)
      ensures r == Failure(Activating) ==>
                RestartedLast(old(host.signals))
      ensures old(host.faults) <= host.faults && (r.Failure? <==> old(host.faults) < host.faults)
      ensures UpgradeReach(state.generations, newCore, newAssets, host.links)
      ensures UpgradeStates(state, newCore, newAssets, Loaded(host.state))
      ensures r.Success? ==>
                && Loaded(host.state) == UpgradedState(state, newCore, newAssets)
                && (newCore.Some? ==> host.links.core.current == newCore)
                && (newAssets.Some? ==> host.links.assets.current == newAssets)
      ensures r.Failure? ==> host.dirs == old(host.dirs) && r.at in {Switching, Activating, Compensating}
      ensures r.Failure? && r.at != Compensating ==> Loaded(host.state) == state
      ensures Fewer(old(host.dirs), host.dirs)
      ensures old(host.lapses) <= host.lapses
      ensures host.refusals == old(host.refusals) + if r == Failure(Compensating) then 1 else 0
      ensures host.lapses == old(host.lapses) ==>
                if r.Success?
                then host.links == Upgraded(state.generations, newCore, newAssets, true) &&
                     Pruned(host.links, old(host.dirs), host.dirs)
                else host.links == state.generations && Loaded(host.state) == state
      ensures host.Continues(old(host.history))
      ensures forall i :: |old(host.history)| <= i < |host.history| ==>
                var d := host.history[i];
                && UpgradeReach(state.generations, newCore, newAssets, d.links)
                && UpgradeStates(state, newCore, newAssets, Loaded(d.state))
                && (host.lapses == old(host.lapses) ==>
                      d.dirs == old(host.dirs) || (d.links == host.links && Pruned(host.links, old(host.dirs), d.dirs)))
    {
      var ok := SwitchUpgrade(newCore, newAssets, state.generations);
      if !ok { return Failure(Switching); }
      r := SettleUpgrade(state, newCore, newAssets);
    }

    /** Confirm what was switched, or put everything back. */
    method SettleUpgrade(state: ManagerState, newCore: Option<Name>, newAssets: Option<Name>)
      returns (r: Result<(), InstallStage>)
      requires UpgradeReach(state.generations, newCore, newAssets, host.links) && host.Recorded()
      requires state == Loaded(host.state)
      modifies host`links, host`lapses, host`shortfalls, host`refusals, host`history, host`state, host`dirs
      modifies host`faults, host`signals, host`process
      ensures old(host.faults) <= host.faults && (r.Failure? <==> old(host.faults) < host.faults)
      ensures Loaded(host.state) == state.(generations := Loaded(host.state).generations)
      ensures r.Success? ==> UpgradeSignalled(true, old(host.signals), state.selectedNode.Some?)
      ensures r == Failure(Activating) ==> RestartedLast(old(host.signals))
      ensures UpgradeReach(state.generations, newCore, newAssets, host.links)
      ensures UpgradeStates(state, newCore, newAssets, Loaded(host.state))
      ensures r.Success? ==>
                host.links == old(host.links) && Loaded(host.state) == UpgradedState(state, newCore, newAssets)
      ensures r.Failure? ==> host.dirs == old(host.dirs) && r.at in {Activating, Compensating}
      ensures r.Failure? && r.at != Compensating ==> Loaded(host.state) == state
      ensures Fewer(old(host.dirs), host.dirs)
      ensures old(host.lapses) <= host.lapses && old(host.shortfalls) <= host.shortfalls
      ensures host.refusals == old(host.refusals) + if r == Failure(Compensating) then 1 else 0
      ensures host.lapses == old(host.lapses) ==>
                if r.Success? then Pruned(host.links, old(host.dirs), host.dirs)
                else host.links == state.generations && Loaded(host.state) == state
      ensures host.Continues(old(host.history))
      ensures forall i :: |old(host.history)| <= i < |host.history| ==>
                var d := host.history[i];
                && UpgradeReach(state.generations, newCore, newAssets, d.links)
                && UpgradeStates(state, newCore, newAssets, Loaded(d.state))
                && (host.lapses == old(host.lapses) ==>
                      d.dirs == old(host.dirs) || (d.links == host.links && Pruned(host.links, old(host.dirs), d.dirs)))
    {
      var ok := ConfirmUpgrade(state, newCore, newAssets);
      if !ok {
        ok := UndoUpgrade(state, newCore, newAssets);
        if !ok { return Failure(Compensating); }
        var _ := host.RestartService();
        return Failure(Activating);
      }
      PruneUpgraded();
      return Success(());
    }

    /** Cores and assets. */
    method PruneUpgraded()
      requires host.Recorded()
      modifies host`dirs, host`lapses, host`shortfalls, host`signals, host`history
      ensures host.signals == old(host.signals) + [Signal.Prune(Core, keepCores), Signal.Prune(Assets, keepAssets)]
      ensures old(host.shortfalls) <= host.shortfalls
      ensures old(host.lapses) <= host.lapses
      ensures Fewer(old(host.dirs), host.dirs)
      ensures host.lapses == old(host.lapses) ==> Pruned(host.links, old(host.dirs), host.dirs)
      ensures host.Continues(old(host.history))
      ensures forall i :: |old(host.history)| <= i < |host.history| ==>
                var d := host.history[i];
                && d == host.OnDisk().(dirs := d.dirs)
                && (host.lapses == old(host.lapses) ==> Pruned(host.links, old(host.dirs), d.dirs))
    {
      host.Prune(Core, keepCores);
      host.Prune(Assets, keepAssets);
    }

    /** Write the shifted state, restart and check health. */
    method ConfirmUpgrade(state: ManagerState, newCore: Option<Name>, newAssets: Option<Name>) returns (ok: bool)
      requires state == Loaded(host.state)
      modifies host`lapses, host`refusals, host`history, host`state, host`faults, host`signals, host`process
      ensures old(host.signals) <= host.signals
      ensures ok ==> UpgradeSignalled(false, old(host.signals), state.selectedNode.Some?)
      ensures old(host.faults) <= host.faults && (!ok <==> old(host.faults) < host.faults)
      ensures host.lapses == old(host.lapses) && host.refusals == old(host.refusals)
      ensures host.state == old(host.state) || host.state == Some(UpgradedState(state, newCore, newAssets))
      ensures ok ==> host.state == Some(UpgradedState(state, newCore, newAssets))
      ensures host.history == old(host.history) + [host.OnDisk()]
    {
      var updated := state;
      if newCore.Some? {
        updated := updated.(generations := updated.generations.(core := updated.generations.core.Shift(newCore.value)));
      }
      if newAssets.Some? {
        updated := updated.(generations :=
          updated.generations.(assets := updated.generations.assets.Shift(newAssets.value)));
      }
      ok := host.WriteState(updated, Record);
      if !ok { return; }
      ok := host.RestartService();
      if ok && state.selectedNode.Some? {
        ok := host.CheckHealth();
      }
    }

    /** Restore the pointers, whatever that reports, and write the old state again. */
    method UndoUpgrade(state: ManagerState, newCore: Option<Name>, newAssets: Option<Name>) returns (ok: bool)
      requires UpgradeReach(state.generations, newCore, newAssets, host.links) && host.Recorded()
      modifies host`links, host`lapses, host`refusals, host`history, host`state, host`faults
      ensures old(host.faults) <= host.faults
      ensures UpgradeReach(state.generations, newCore, newAssets, host.links)
      ensures host.state == old(host.state) || host.state == Some(state)
      ensures ok ==> host.state == Some(state)
      ensures old(host.lapses) <= host.lapses
      ensures host.refusals == old(host.refusals) + if ok then 0 else 1
      ensures host.lapses == old(host.lapses) ==> host.links == state.generations && Loaded(host.state) == state
      ensures host.Continues(old(host.history))
      ensures forall i :: |old(host.history)| <= i < |host.history| ==>
                var d := host.history[i];
                && UpgradeReach(state.generations, newCore, newAssets, d.links) && d.dirs == host.dirs
                && (d.state == old(host.state) || d.state == host.state)
    {
      RestoreUpgrade(newCore, newAssets, newCore.Some?, newAssets.Some?, state.generations);
      ok := host.WriteState(state, Undo);
    }

    /**
     `uninstall` and `purge`. A removal that fails may have removed any part of its tree. If no
     call lapsed, whole trees are there or gone.
     */
    method ApplyRemoval(purge: bool) returns (r: Result<(), InstallStage>)
      requires host.Ready()
      modifies host`links, host`dirs, host`state, host`lapses, host`history, host`faults
      ensures old(host.faults) <= host.faults && (r.Failure? <==> old(host.faults) < host.faults)
      ensures !purge ==> host.Snap() == old(host.Snap())
      ensures Shrunk(old(host.Snap()), host.Snap())
      ensures host.state.Some? ==>
              host.links.core == old(host.links).core && host.links.assets == old(host.links).assets
      ensures r.Success? && purge ==> host.Snap() == WithoutHost(old(host.Snap()))
      ensures old(host.lapses) <= host.lapses
      ensures host.lapses == old(host.lapses) ==>
                host.Snap() in {old(host.Snap()), WithoutState(old(host.Snap())), WithoutHost(old(host.Snap()))}
      ensures host.Agrees() <==> Inv(host.Snap())
      ensures host.Continues(old(host.history))
      ensures forall i :: |old(host.history)| <= i < |host.history| ==>
                RemovalCrash(old(host.OnDisk()), host.history[i])
    {
      ghost var s0 := host.Snap();
      var ok := host.Attempt(); // units and binaries
      if !ok { return Failure(Removing); }
      if purge {
        ok := Purge();
        AgreementDecides(s0, host.Snap());
        if !ok { return Failure(Removing); }
      }
      ok := host.Attempt(); // unit reload
      return if ok then Success(()) else Failure(Removing);
    }

    /** The trees in order: /etc, /var/lib, cache, log, /opt. The first failure ends the purge. */
    method Purge() returns (ok: bool)
      requires host.Recorded()
      modifies host`links, host`dirs, host`state, host`lapses, host`history, host`faults
      ensures old(host.faults) <= host.faults && (!ok <==> old(host.faults) < host.faults)
      ensures Shrunk(old(host.Snap()), host.Snap())
      ensures host.state.Some? ==>
              host.links.core == old(host.links).core && host.links.assets == old(host.links).assets
      ensures ok ==> host.Snap() == WithoutHost(old(host.Snap()))
      ensures old(host.lapses) <= host.lapses
      ensures host.lapses == old(host.lapses) ==>
                host.Snap() in {old(host.Snap()), WithoutState(old(host.Snap())), WithoutHost(old(host.Snap()))}
      ensures host.Continues(old(host.history))
      ensures forall i :: |old(host.history)| <= i < |host.history| ==>
                RemovalCrash(old(host.OnDisk()), host.history[i])
    {
      ok := host.Attempt(); // /etc/xray-manager
      if !ok { return; }
      ok := host.RemoveLibrary();
      if !ok { return; }
      ok := host.Attempt(); // /var/cache/xray-manager
      if !ok { return; }
      ok := host.Attempt(); // /var/log/xray-manager
      if !ok { return; }
      ok := host.RemoveInstallation();
    }
  }

  /**
   What a crash during a removal can leave: every pointer as it was or gone, and cores and assets
   as they were as long as the state is there.
   */
  ghost predicate RemovalCrash(before: Disk, d: Disk) {
    && d.links.core.Within(before.links.core) && d.links.assets.Within(before.links.assets)
    && d.links.config.Within(before.links.config)
    && (d.state == before.state || d.state == None)
    && (d.state.Some? ==> d.links.core == before.links.core && d.links.assets == before.links.assets &&
                          d.dirs.core == before.dirs.core && d.dirs.assets == before.dirs.assets)
  }

  /** After a removal the invariant is no more than agreement: what was used or validated still was. */
  lemma AgreementDecides(s: Snapshot, s': Snapshot)
    requires Inv(s) && Shrunk(s, s')
    ensures Inv(s') <==>
              && s'.links == Fields(s') && AllOrdered(s'.links)
              && s'.links.core.Targets() <= s'.dirs.core.Keys && s'.links.assets.Targets() <= s'.dirs.assets.Keys
              && s'.links.config.Targets() <= s'.dirs.config.Keys
  {
    assert s'.links.config.Targets() <= s.links.config.Targets();
  }

  /** /var/lib is gone, /opt is not. */
  function WithoutState(s: Snapshot): Snapshot {
    s.(links := s.links.(config := NO_PAIR), dirs := s.dirs.(config := map[]), state := None)
  }

  function WithoutHost(s: Snapshot): Snapshot {
    s.(links := NO_LINKS, dirs := Trio(map[], map[], map[]), state := None)
  }

  /**
   A purge that stops between /var/lib and /opt breaks the invariant exactly when a
   core or asset pointer was set: its state field is gone and the pointer is not.
   */
  lemma PurgedHalfway(s: Snapshot)
    requires Inv(s)
    ensures Inv(WithoutState(s)) <==> s.links.core == NO_PAIR && s.links.assets == NO_PAIR
    ensures Inv(WithoutHost(s))
    ensures Inv(WithoutState(s)) ==> Step(s, Trio(Clear, Clear, Clear), WithoutState(s))
    ensures Step(s, Trio(Clear, Clear, Clear), WithoutHost(s))
  {
    assert Fields(WithoutState(s)) == NO_LINKS;
  }

  /** No directory has been added. */
  ghost predicate Fewer(before: Trio<map<Name, Dir>>, after: Trio<map<Name, Dir>>) {
    && after.core.Keys <= before.core.Keys && after.assets.Keys <= before.assets.Keys
    && after.config.Keys <= before.config.Keys
  }

  /** Pointers (`asLinks`) or fields after an upgrade. */
  function Upgraded(pairs: Trio<Pair>, newCore: Option<Name>, newAssets: Option<Name>, asLinks: bool): Trio<Pair> {
    Trio(if newCore.None? then pairs.core
         else if asLinks then pairs.core.Switch(newCore.value)
         else pairs.core.Shift(newCore.value),
         if newAssets.None? then pairs.assets
         else if asLinks then pairs.assets.Switch(newAssets.value)
         else pairs.assets.Shift(newAssets.value),
         pairs.config)
  }

  function UpgradedState(state: ManagerState, newCore: Option<Name>, newAssets: Option<Name>): ManagerState {
    state.(generations := Upgraded(state.generations, newCore, newAssets, false))
  }

  /** An upgrade has no error after a commit, unless restoring fails without effect. */
  ghost predicate UpgradeEnds(r: Result<(), InstallStage>, s: Snapshot, s': Snapshot) {
    && Step(s, ForwardAll(s.links, s'.links), s')
    && s'.links.config == s.links.config
    && Loaded(s'.state) == Loaded(s.state).(generations := Fields(s'))
    && (r.Failure? ==> r.at in {Preparing, Validating, Switching, Activating, Compensating})
    && (r.Failure? && r.at != Compensating ==> s'.links == s.links && Loaded(s'.state) == Loaded(s.state))
  }

  /** An upgrade that moved nothing. */
  lemma UpgradeWaits(r: Result<(), InstallStage>, s: Snapshot, s': Snapshot)
    requires s'.links == s.links && s'.state == s.state && s.links == Fields(s)
    requires r.Failure? ==> r.at in {Preparing, Validating}
    ensures Idle(s, s') ==> UpgradeEnds(r, s, s')
  {
  }

  lemma UpgradeIsLegal(r: Result<(), InstallStage>, s0: Snapshot, s1: Snapshot, newCore: Option<Name>,
                       newAssets: Option<Name>, s2: Snapshot)
    requires Inv(s0) && Idle(s0, s1) && s1.state == s0.state
    requires s2.serial == s1.serial && s2.validated == s1.validated
    requires newCore.Some? ==> newCore.value in s1.dirs.core && newCore != s1.links.core.current
    requires newAssets.Some? ==> newAssets.value in s1.dirs.assets && newAssets != s1.links.assets.current
    requires Fewer(s1.dirs, s2.dirs)
    requires r.Failure? ==> r.at in {Preparing, Validating, Switching, Activating, Compensating}
    requires UpgradeStates(Loaded(s1.state), newCore, newAssets, Loaded(s2.state))
    requires r.Success? ==> Loaded(s2.state) == UpgradedState(Loaded(s1.state), newCore, newAssets)
    requires r.Failure? && r.at != Compensating ==> Loaded(s2.state) == Loaded(s1.state)
    ensures s2.links == Fields(s2) && Standing(Disk(s2.links, s2.dirs, s2.state)) ==>
              UpgradeEnds(r, s0, s2) && Inv(s2)
  {
    StepKeepsInv(s0, HOLD, s1);
    if s2.links != Fields(s2) || !Standing(Disk(s2.links, s2.dirs, s2.state)) { return; }
    if Loaded(s2.state) == UpgradedState(Loaded(s1.state), newCore, newAssets) {
      assert s2.links == Upgraded(s1.links, newCore, newAssets, true);
      UpgradeIsStep(s1, newCore, newAssets, s2);
      HousekeepingIsIdle(s2, s2);
      IdleAround(s0, s1, ForwardAll(s1.links, s2.links), s2, s2);
    } else {
      HousekeepingIsIdle(s1, s2);
      IdleTwice(s0, s1, s2);
    }
  }

  /** An upgrade in which no call lapsed ends in agreement. */
  lemma UpgradedAgrees(r: Result<(), InstallStage>, s1: Snapshot, newCore: Option<Name>, newAssets: Option<Name>,
                       s2: Snapshot)
    requires Inv(s1)
    requires newCore.Some? ==> newCore.value in s1.dirs.core && newCore != s1.links.core.current
    requires newAssets.Some? ==> newAssets.value in s1.dirs.assets && newAssets != s1.links.assets.current
    requires if r.Success?
             then s2.links == Upgraded(s1.links, newCore, newAssets, true) &&
                  Loaded(s2.state) == UpgradedState(Loaded(s1.state), newCore, newAssets)
             else s2.links == s1.links && Loaded(s2.state) == Loaded(s1.state)
    requires s2.dirs == s1.dirs || Pruned(s2.links, s1.dirs, s2.dirs)
    ensures s2.links == Fields(s2) && Standing(Disk(s2.links, s2.dirs, s2.state)) && AllOrdered(s2.links)
  {
    UpgradeCrashStands(s1, newCore, newAssets, s2.links, Disk(s2.links, s2.dirs, s2.state));
  }

  lemma UpgradeCrashesStand(s1: Snapshot, newCore: Option<Name>, newAssets: Option<Name>, links: Trio<Pair>,
                            history: seq<Disk>, past: nat)
    requires Inv(s1)
    requires newCore.Some? ==> newCore.value in s1.dirs.core
    requires newAssets.Some? ==> newAssets.value in s1.dirs.assets
    requires forall i :: past <= i < |history| ==>
               var d := history[i];
               && UpgradeReach(s1.links, newCore, newAssets, d.links)
               && (d.dirs == s1.dirs || (d.links == links && Pruned(links, s1.dirs, d.dirs)))
    ensures forall i :: past <= i < |history| ==> Standing(history[i])
  {
    forall i | past <= i < |history|
      ensures Standing(history[i])
    {
      UpgradeCrashStands(s1, newCore, newAssets, links, history[i]);
    }
  }

  lemma UpgradeCrashStands(s1: Snapshot, newCore: Option<Name>, newAssets: Option<Name>, links: Trio<Pair>, d: Disk)
    requires Inv(s1) && UpgradeReach(s1.links, newCore, newAssets, d.links)
    requires newCore.Some? ==> newCore.value in s1.dirs.core
    requires newAssets.Some? ==> newAssets.value in s1.dirs.assets
    requires d.dirs == s1.dirs || (d.links == links && Pruned(links, s1.dirs, d.dirs))
    ensures Standing(d)
  {
    assert d.links.core.Targets() <= s1.dirs.core.Keys && d.links.assets.Targets() <= s1.dirs.assets.Keys;
    if d.dirs != s1.dirs {
      PrunedStands(s1, links, d);
    }
  }

  lemma UpgradeIsStep(s1: Snapshot, newCore: Option<Name>, newAssets: Option<Name>, s2: Snapshot)
    requires Inv(s1)
    requires s2.serial == s1.serial && s2.validated == s1.validated && Pruned(s2.links, s1.dirs, s2.dirs)
    requires newCore.Some? ==> newCore.value in s1.dirs.core && newCore != s1.links.core.current
    requires newAssets.Some? ==> newAssets.value in s1.dirs.assets && newAssets != s1.links.assets.current
    requires s2.links == Upgraded(s1.links, newCore, newAssets, true)
    requires Fields(s2) == Upgraded(s1.links, newCore, newAssets, false)
    ensures Step(s1, ForwardAll(s1.links, s2.links), s2) && Inv(s2)
  {
    StepKeepsInv(s1, ForwardAll(s1.links, s2.links), s2);
  }

  /** An install that moved nothing. */
  lemma InstallWaits(at: InstallStage, s: Snapshot, s': Snapshot)
    requires s'.links == s.links && IdentitiesRecorded(Loaded(s.state), Loaded(s'.state))
    requires at in {Preparing, Validating}
    ensures Idle(s, s') ==> InstallEnds(Failure(at), s, s')
  {
  }

  /** What every end of an activation is worth, and what the one in which no call lapsed is. */
  lemma InstallFinishes(r: Result<(), InstallStage>, s0: Snapshot, s2: Snapshot, p: Prepared, identities: set<string>,
                        backends: map<string, string>, s3: Snapshot)
    requires Inv(s0) && Inv(s2) && Idle(s0, s2) && IdentitiesRecorded(Loaded(s0.state), Loaded(s2.state))
    requires p.core in s2.dirs.core && p.assets in s2.dirs.assets && p.config in s2.dirs.config
             && p.config in s2.validated
    requires StateReaches(r, Loaded(s2.state), p, identities, backends, Loaded(s3.state))
    requires s3.serial == s2.serial && s3.validated == s2.validated && Fewer(s2.dirs, s3.dirs)
    ensures InstalledFields(r, Loaded(s0.state), backends, Loaded(s3.state))
    ensures s3.links == Fields(s3) && Standing(Disk(s3.links, s3.dirs, s3.state)) ==>
              InstallEnds(r, s0, s3) && Inv(s3)
    ensures ActivationKept(r, s2.links, Loaded(s2.state), p, s3.links, Loaded(s3.state)) &&
            (s3.dirs == s2.dirs || Pruned(s3.links, s2.dirs, s3.dirs)) ==>
              s3.links == Fields(s3) && Standing(Disk(s3.links, s3.dirs, s3.state))
  {
    InstalledFieldsHold(r, Loaded(s0.state), Loaded(s2.state), p, identities, backends, Loaded(s3.state));
    if s3.links == Fields(s3) {
      AgreeingActivation(r, s2.links, Loaded(s2.state), p, identities, backends, s3.links, Loaded(s3.state));
    }
    InstallIsLegal(r, s0, s2, p, identities, backends, s3);
    var d := Disk(s3.links, s3.dirs, s3.state);
    if ActivationKept(r, s2.links, Loaded(s2.state), p, s3.links, Loaded(s3.state)) &&
       (s3.dirs == s2.dirs || Pruned(s3.links, s2.dirs, s3.dirs)) {
      assert s3.links.core.Targets() <= s2.dirs.core.Keys && s3.links.assets.Targets() <= s2.dirs.assets.Keys;
      assert s3.links.config.Targets() <= s2.dirs.config.Keys;
      if s3.dirs != s2.dirs {
        PrunedStands(s2, s3.links, d);
      }
    }
  }

  lemma AgreeingActivation(r: Result<(), InstallStage>, links: Trio<Pair>, state: ManagerState, p: Prepared,
                           identities: set<string>, backends: map<string, string>,
                           links': Trio<Pair>, state': ManagerState)
    requires links == state.generations && StateReaches(r, state, p, identities, backends, state')
    ensures links' == state'.generations ==>
              ActivationEnds(r, links, state, p, identities, backends, links', state')
  {
  }

  lemma InstallIsLegal(r: Result<(), InstallStage>, s0: Snapshot, s2: Snapshot, p: Prepared, identities: set<string>,
                       backends: map<string, string>, s3: Snapshot)
    requires Inv(s0) && Inv(s2) && Idle(s0, s2) && IdentitiesRecorded(Loaded(s0.state), Loaded(s2.state))
    requires p.core in s2.dirs.core && p.assets in s2.dirs.assets && p.config in s2.dirs.config
             && p.config in s2.validated
    requires s3.links == Fields(s3) ==>
               ActivationEnds(r, s2.links, Loaded(s2.state), p, identities, backends, s3.links, Loaded(s3.state))
    requires s3.serial == s2.serial && s3.validated == s2.validated && Fewer(s2.dirs, s3.dirs)
    ensures s3.links == Fields(s3) && Standing(Disk(s3.links, s3.dirs, s3.state)) ==>
              InstallEnds(r, s0, s3) && Inv(s3)
  {
    if s3.links != Fields(s3) || !Standing(Disk(s3.links, s3.dirs, s3.state)) { return; }
    if s3.links == AdvanceAll(s2.links, p) && Fields(s3) == AdvanceAll(Fields(s2), p) {
      InstallCommits(s0, s2, p, s3);
    } else {
      HousekeepingIsIdle(s2, s3);
      IdleTwice(s0, s2, s3);
    }
  }

  /** How an activation may leave pointers and state. */
  ghost predicate ActivationEnds(r: Result<(), InstallStage>, links: Trio<Pair>, state: ManagerState, p: Prepared,
                                 identities: set<string>, backends: map<string, string>,
                                 links': Trio<Pair>, state': ManagerState) {
    && StateReaches(r, state, p, identities, backends, state')
    && links' == state'.generations
    && if r.Success? || r == Failure(HealthStamp)
       then links' == AdvanceAll(links, p)
       else links' == links || (r.at in {WritingState, Compensating} && links' == AdvanceAll(links, p))
  }

  /** Where an activation ends when no call lapsed: everything advanced, or everything back. */
  ghost predicate ActivationKept(r: Result<(), InstallStage>, links: Trio<Pair>, state: ManagerState, p: Prepared,
                                 links': Trio<Pair>, state': ManagerState) {
    if r.Success? || r == Failure(HealthStamp)
    then links' == AdvanceAll(links, p) && state'.generations == AdvanceAll(state.generations, p)
    else links' == links && state'.generations == state.generations && (r != Failure(WritingState) ==> state' == state)
  }

  ghost predicate OldOrAdvanced(fields: Trio<Pair>, p: Prepared, fields': Trio<Pair>) {
    fields' == fields || fields' == AdvanceAll(fields, p)
  }

  /** Every pair an activation can leave, whatever the faults. */
  ghost predicate LinksReach(links: Trio<Pair>, p: Prepared, links': Trio<Pair>) {
    && links'.core in SwitchReach(links.core, p.core)
    && links'.assets in SwitchReach(links.assets, p.assets)
    && links'.config in SwitchReach(links.config, p.config)
  }

  /** What a crash during an activation can leave, whatever the faults. */
  ghost predicate InstallCrash(links: Trio<Pair>, state: ManagerState, p: Prepared, identities: set<string>,
                               backends: map<string, string>, d: Disk) {
    var installed := InstalledState(state, p, identities, backends);
    && LinksReach(links, p, d.links)
    && (|| Loaded(d.state) == state || Loaded(d.state) == installed
        || Loaded(d.state) == Stamped(installed, Loaded(d.state).lastHealthcheck))
  }

  /**
   A crash during an activation leaves every pointer on an existing directory until pruning
   starts, and pointers and state in agreement if and only if both are as before or both moved.
   */
  lemma InstallCrashStands(s: Snapshot, p: Prepared, identities: set<string>, backends: map<string, string>, d: Disk)
    requires Inv(s) && InstallCrash(s.links, Loaded(s.state), p, identities, backends, d)
    requires p.core in s.dirs.core && p.assets in s.dirs.assets && p.config in s.dirs.config
    ensures d.dirs == s.dirs ==> Standing(d)
    ensures Agreeing(d) <==>
            d.links == if Fields(s) == Loaded(d.state).generations then s.links else AdvanceAll(s.links, p)
  {
  }

  lemma UpgradeWaiting(s: Snapshot, name: Name, newCore: Option<Name>, newAssets: Option<Name>, history: seq<Disk>,
                       past: nat)
    requires Inv(s)
    requires forall i :: past <= i < |history| ==>
               history[i].links == s.links && history[i].state == s.state && DirsKept(s.dirs, name, history[i].dirs)
    ensures forall i :: past <= i < |history| ==>
              && history[i].links == s.links && StandingBut(name, history[i])
              && UpgradeReach(s.links, newCore, newAssets, history[i].links)
              && UpgradeStates(Loaded(s.state), newCore, newAssets, Loaded(history[i].state))
  {
    forall i | past <= i < |history|
      ensures StandingBut(name, history[i])
    {
      WaitingStands(s, name, history[i]);
    }
  }

  lemma InstallWaiting(s: Snapshot, name: Name, p: Prepared, history: seq<Disk>, past: nat)
    requires Inv(s)
    requires forall i :: past <= i < |history| ==>
               && history[i].links == s.links && IdentitiesRecorded(Loaded(s.state), Loaded(history[i].state))
               && DirsKept(s.dirs, name, history[i].dirs)
    ensures forall i :: past <= i < |history| ==>
              && history[i].links == s.links && StandingBut(name, history[i])
              && LinksReach(s.links, p, history[i].links)
              && OldOrAdvanced(Fields(s), p, Loaded(history[i].state).generations)
  {
    forall i | past <= i < |history|
      ensures StandingBut(name, history[i])
    {
      WaitingStands(s, name, history[i]);
    }
  }

  lemma WaitingStands(s: Snapshot, name: Name, d: Disk)
    requires Inv(s) && d.links == s.links && DirsKept(s.dirs, name, d.dirs)
    ensures StandingBut(name, d)
  {
  }

  lemma CrashesStand(s: Snapshot, p: Prepared, identities: set<string>, backends: map<string, string>,
                     links: Trio<Pair>, history: seq<Disk>, past: nat)
    requires Inv(s) && p.core in s.dirs.core && p.assets in s.dirs.assets && p.config in s.dirs.config
    requires forall i :: past <= i < |history| ==>
               var d := history[i];
               && InstallCrash(s.links, Loaded(s.state), p, identities, backends, d)
               && (d.dirs == s.dirs || (d.links == links && Pruned(links, s.dirs, d.dirs)))
    ensures forall i :: past <= i < |history| ==> Standing(history[i])
  {
    forall i | past <= i < |history|
      ensures Standing(history[i])
    {
      CrashStands(s, p, identities, backends, links, history[i]);
    }
  }

  lemma CrashStands(s: Snapshot, p: Prepared, identities: set<string>, backends: map<string, string>,
                    links: Trio<Pair>, d: Disk)
    requires Inv(s) && InstallCrash(s.links, Loaded(s.state), p, identities, backends, d)
    requires p.core in s.dirs.core && p.assets in s.dirs.assets && p.config in s.dirs.config
    requires d.dirs == s.dirs || (d.links == links && Pruned(links, s.dirs, d.dirs))
    ensures Standing(d)
  {
    InstallCrashStands(s, p, identities, backends, d);
    if d.dirs != s.dirs {
      PrunedStands(s, links, d);
    }
  }

  lemma PrunedStands(s: Snapshot, links: Trio<Pair>, d: Disk)
    requires d.links == links && Pruned(links, s.dirs, d.dirs)
    requires links.core.Targets() <= s.dirs.core.Keys && links.assets.Targets() <= s.dirs.assets.Keys
    requires links.config.Targets() <= s.dirs.config.Keys
    ensures Standing(d)
  {
    assert links.core.Targets() * s.dirs.core.Keys == links.core.Targets();
    assert links.assets.Targets() * s.dirs.assets.Keys == links.assets.Targets();
    assert links.config.Targets() * s.dirs.config.Keys == links.config.Targets();
  }

  /** Every state an upgrade can leave, whatever the faults. */
  ghost predicate UpgradeStates(state: ManagerState, newCore: Option<Name>, newAssets: Option<Name>,
                                state': ManagerState) {
    state' == state || state' == UpgradedState(state, newCore, newAssets)
  }

  /** Every pair an upgrade can leave, whatever the faults. */
  ghost predicate UpgradeReach(links: Trio<Pair>, newCore: Option<Name>, newAssets: Option<Name>, links': Trio<Pair>) {
    && (if newCore.Some? then links'.core in SwitchReach(links.core, newCore.value) else links'.core == links.core)
    && (if newAssets.Some? then links'.assets in SwitchReach(links.assets, newAssets.value)
        else links'.assets == links.assets)
    && links'.config == links.config
  }

  /** Every state an activation can leave on disk, whatever the faults. */
  ghost predicate StateReaches(r: Result<(), InstallStage>, state: ManagerState, p: Prepared,
                               identities: set<string>, backends: map<string, string>, state': ManagerState) {
    var installed := InstalledState(state, p, identities, backends);
    match r
    case Success(_) =>
      && state' == (if state.selectedNode.Some? then Stamped(installed, state'.lastHealthcheck) else installed)
      && (state.selectedNode.Some? ==> state'.lastHealthcheck.Some?)
    case Failure(HealthStamp) =>
      state.selectedNode.Some? && (state' == installed || state' == Stamped(installed, state'.lastHealthcheck))
    case Failure(at) => state' == state || (at in {WritingState, Compensating} && state' == installed)
  }

  /**
   A commit write that took effect although it failed, with the pointers back: the
   agreement holds if and only if nothing was new, as in a repair of a healthy host.
   */
  lemma StrandedInstall(s: Snapshot, p: Prepared, identities: set<string>, backends: map<string, string>)
    requires Inv(s)
    ensures Inv(s.(state := Some(InstalledState(Loaded(s.state), p, identities, backends)))) <==>
            s.links.core.current == Some(p.core) && s.links.assets.current == Some(p.assets) &&
            s.links.config.current == Some(p.config)
  {
    StrandedWrite(s, InstalledState(Loaded(s.state), p, identities, backends));
  }

  /**
   What an install leaves of the other fields of state.json: identities are only added, the
   selected node stays, and what was committed names the backends in use.
   */
  ghost predicate InstalledFields(r: Result<(), InstallStage>, was: ManagerState, backends: map<string, string>,
                                  now: ManagerState) {
    && was.createdIdentities <= now.createdIdentities && now.selectedNode == was.selectedNode
    && (r.Success? || r == Failure(HealthStamp) ==> now.installedBackends == backends)
    && (if r.Success? && was.selectedNode.Some? then now.lastHealthcheck.Some? && now.lastRollbackReason.None?
        else r == Failure(HealthStamp) ||
             (now.lastHealthcheck == was.lastHealthcheck && now.lastRollbackReason == was.lastRollbackReason))
  }

  lemma InstalledFieldsHold(r: Result<(), InstallStage>, s0: ManagerState, s2: ManagerState, p: Prepared,
                            identities: set<string>, backends: map<string, string>, s3: ManagerState)
    requires IdentitiesRecorded(s0, s2) && StateReaches(r, s2, p, identities, backends, s3)
    ensures InstalledFields(r, s0, backends, s3)
  {
  }

  /** state.json gained identities and backends and nothing else. */
  ghost predicate IdentitiesRecorded(state: ManagerState, state': ManagerState) {
    && state.createdIdentities <= state'.createdIdentities
    && state' == state.(createdIdentities := state'.createdIdentities, installedBackends := state'.installedBackends)
  }

  /** Preparing a core keeps every directory the links need. */
  lemma CoresKept(s: Snapshot, s': Snapshot, name: Name)
    requires Inv(s) && name.Release?
    requires s' == s.(dirs := s.dirs.(core := s'.dirs.core), serial := s'.serial) && s'.serial >= s.serial
    requires forall n :: n in s.dirs.core && n != name ==> n in s'.dirs.core
    requires s.links.core.Targets() <= s'.dirs.core.Keys || (name in s.dirs.core ==> name in s'.dirs.core)
    requires forall n :: n in s'.dirs.core && n !in s.dirs.core && n != name ==> Used(n, s'.serial)
    ensures Housekeeping(s, s') && Inv(s')
  {
    HousekeepingIsIdle(s, s');
  }

  /** A fresh generation may come and go without touching the others. */
  lemma GenerationsKept(s: Snapshot, s': Snapshot)
    requires Inv(s) && s'.serial == s.serial + 1
    requires s'.links == s.links && s'.state == s.state && s'.dirs.core == s.dirs.core
    requires s.dirs.assets.Keys - {Generation(s.serial)} <= s'.dirs.assets.Keys <=
             s.dirs.assets.Keys + {Generation(s.serial)}
    requires s.dirs.config.Keys - {Generation(s.serial)} <= s'.dirs.config.Keys <=
             s.dirs.config.Keys + {Generation(s.serial)}
    requires s.validated <= s'.validated <= s.validated + {Generation(s.serial)}
    ensures Housekeeping(s, s') && Inv(s')
    ensures Generation(s.serial) !in s.dirs.assets && Generation(s.serial) !in s.dirs.config
  {
    assert !Used(Generation(s.serial), s.serial);
    HousekeepingIsIdle(s, s');
  }

  /** An install commits everything, or nothing that the pointers or the generation fields show. */
  ghost predicate InstallEnds(r: Result<(), InstallStage>, s: Snapshot, s': Snapshot) {
    && Loaded(s'.state).selectedNode == Loaded(s.state).selectedNode
    && Step(s, ForwardAll(s.links, s'.links), s')
    && if r.Success? || r == Failure(HealthStamp) then
         s'.links.core.current.Some? && s'.links.assets.current.Some? && s'.links.config.current.Some?
       else
         && (r.at !in {WritingState, Compensating} ==> s'.links == s.links)
         && (s'.links == s.links ==> IdentitiesRecorded(Loaded(s.state), Loaded(s'.state)))
  }

  /** Testing what is active once more. */
  lemma ValidatedIsIdle(s0: Snapshot, s1: Snapshot, s2: Snapshot)
    requires Inv(s0) && Inv(s1) && Idle(s0, s1) && s2 == s1.(validated := s2.validated)
    requires s1.validated <= s2.validated <= s1.validated + s1.links.config.Targets()
    ensures Idle(s0, s2) && Inv(s2)
  {
    HousekeepingIsIdle(s1, s2);
    IdleTwice(s0, s1, s2);
  }

  /** Two rounds of housekeeping are one. */
  lemma IdleTwice(s0: Snapshot, s1: Snapshot, s2: Snapshot)
    requires Inv(s0) && Idle(s0, s1) && Idle(s1, s2)
    ensures Idle(s0, s2) && Inv(s2)
  {
    UsedLater(s1, s2);
    StepKeepsInv(s0, HOLD, s1);
    StepKeepsInv(s1, HOLD, s2);
    IdleAround(s0, s1, HOLD, s2, s2);
  }

  lemma InstallCommits(s0: Snapshot, s2: Snapshot, p: Prepared, s3: Snapshot)
    requires Inv(s0) && Inv(s2) && Idle(s0, s2)
    requires s3.links == AdvanceAll(s2.links, p) && Fields(s3) == AdvanceAll(Fields(s2), p)
    requires p.core in s2.dirs.core && p.assets in s2.dirs.assets && p.config in s2.dirs.config
             && p.config in s2.validated
    requires s3.serial == s2.serial && s3.validated == s2.validated && Pruned(s3.links, s2.dirs, s3.dirs)
    ensures Step(s0, ForwardAll(s0.links, s3.links), s3) && Inv(s3)
    ensures s3.links.core.current.Some? && s3.links.assets.current.Some? && s3.links.config.current.Some?
  {
    AdvanceIsStep(s2, Trio(p.core, p.assets, p.config), s3);
    HousekeepingIsIdle(s3, s3);
    IdleAround(s0, s2, ForwardAll(s2.links, s3.links), s3, s3);
  }
}

/** ManagerService: `apply_config` and the three manual rollbacks. */
module Application {
  import opened Prelude
  import opened Domain
  import opened Transactions
  import opened Host

  /** Where an operation stopped. */
  datatype ApplyStage =
    | Preparing | Validating | Owning | Switching | WritingState | Activating
    | Compensating | HealthStamp | MissingGeneration

  datatype Event =
    | ConfigValidationStarted | ConfigValidationSucceeded | ConfigValidationFailed
    | ServiceRestartStarted | ServiceRestartSucceeded
    | RollbackStarted | RollbackSucceeded

  /** What was on the host when an event was emitted. */
  datatype Scene = Scene(links: Trio<Pair>, state: Option<ManagerState>)

  const CONFIG_ROLLBACK_REASON := "configuration activation or healthcheck failed"

  function ComponentLabel(c: Component): string {
    match c
    case Core => "core"
    case Assets => "assets"
    case Config => "configuration"
  }

  /** What a manual rollback leaves as its reason. */
  function Reason(c: Component): (reason: string)
    ensures c == Core ==> reason == "manual core rollback"
    ensures c == Assets ==> reason == "manual assets rollback"
    ensures c == Config ==> reason == "manual configuration rollback"
  {
    assert "manual " + "core" + " rollback" == "manual core rollback";
    assert "manual " + "assets" + " rollback" == "manual assets rollback";
    assert "manual " + "configuration" + " rollback" == "manual configuration rollback";
    "manual " + ComponentLabel(c) + " rollback"
  }

  /** state.json after an apply, before the health stamp. */
  function AppliedState(state: ManagerState, generation: Name, selected: Option<string>): ManagerState {
    state.(generations := state.generations.(config := state.generations.config.Shift(generation)),
           selectedNode := selected)
  }

  function RolledBackState(state: ManagerState, c: Component): ManagerState {
    state.(generations := state.generations.Set(c, state.generations.Get(c).Swap()),
           lastRollbackReason := Some(Reason(c)))
  }

  /** Events of the preparation that ends with `r`. */
  function PrepareLog(r: Result<Name, ApplyStage>): seq<Event> {
    match r
    case Failure(Preparing) => []
    case Failure(Validating) => [ConfigValidationStarted, ConfigValidationFailed]
    case _ => [ConfigValidationStarted, ConfigValidationSucceeded]
  }

  /** Events of the deployment that ends with `r`. */
  function DeployLog(r: Result<Name, ApplyStage>): seq<Event> {
    match r
    case Success(_) => [ServiceRestartStarted, ServiceRestartSucceeded]
    case Failure(HealthStamp) => [ServiceRestartStarted, ServiceRestartSucceeded]
    case Failure(Activating) => [ServiceRestartStarted, RollbackStarted, RollbackSucceeded]
    case Failure(Compensating) => [ServiceRestartStarted, RollbackStarted]
    case _ => []
  }

  /** The calls of an activation that goes through: policy first, then the service, then its health. */
  function ApplySignals(tunEnabled: bool, checkHealth: bool, process: Process): seq<Signal> {
    (if tunEnabled then [EnablePolicy, StartPolicy] else [StopPolicy, RoutesOff, FirewallOff, DisablePolicy])
    + [EnableService, Restart(process)] + HealthSignals(checkHealth, process)
  }

  function RollbackSignals(checkHealth: bool, process: Process): seq<Signal> {
    [Restart(process)] + HealthSignals(checkHealth, process)
  }

  /** The last of some further signals. */
  ghost predicate EndsWith(before: seq<Signal>, after: seq<Signal>, last: Signal) {
    before < after && after[|after| - 1] == last
  }

  function HealthSignals(checkHealth: bool, process: Process): seq<Signal> {
    if checkHealth then [Health(Some(process))] else []
  }

  class ManagerService {
    const host: Host
    const tunEnabled: bool
    const keepGenerations: nat
    var memory: ManagerState
    var events: seq<Event>
    ghost var scenes: seq<Scene>

    /** Which calls went to the services: all of an activation, or a restart with what was restored. */
    ghost predicate Signalled(past: seq<Signal>, r: Result<Name, ApplyStage>, selected: Option<string>)
      reads this, host
    {
      && (r.Success? || r == Failure(HealthStamp) ==>
            && host.process == Some(ActiveProcess(host.links))
            && host.signals == past + ApplySignals(tunEnabled, selected.Some?, ActiveProcess(host.links))
                                    + if r.Success? then [Signal.Prune(Config, keepGenerations)] else [])
      && (r == Failure(Activating) ==> EndsWith(past, host.signals, Restart(ActiveProcess(host.links))))
      && (r.Failure? && r.at !in {HealthStamp, Activating, Compensating} ==> host.signals == past)
    }

    /** Memory equals disk, which the composition root establishes for every run. */
    ghost predicate Ready()
      reads this, host
    {
      host.Ready() && memory == Loaded(host.state) && |scenes| == |events|
    }

    constructor (host: Host, tunEnabled: bool, keepGenerations: nat)
      requires host.Ready()
      ensures this.host == host && Ready() && events == []
    {
      this.host := host;
      this.tunEnabled := tunEnabled;
      this.keepGenerations := keepGenerations;
      memory := Loaded(host.state);
      events, scenes := [], [];
    }

    method Emit(e: Event)
      requires |scenes| == |events|
      modifies this`events, this`scenes
      ensures events == old(events) + [e]
      ensures scenes == old(scenes) + [Scene(host.links, host.state)]
    {
      events := events + [e];
      scenes := scenes + [Scene(host.links, host.state)];
    }

    /** Disk first, memory only after the write succeeded; a failed write may have reached the disk. */
    method WriteState(s: ManagerState, ghost purpose: Purpose) returns (ok: bool)
      modifies this`memory, host`state, host`lapses, host`refusals, host`history, host`faults
      ensures host.faults == old(host.faults) + if ok || purpose == Undo then 0 else 1
      ensures host.state == old(host.state) || host.state == Some(s)
      ensures ok ==> host.state == Some(s) && memory == s
      ensures !ok ==> memory == old(memory)
      ensures host.lapses == old(host.lapses) +
                match purpose
                case Record => 0
                case Commit =>
                  if ok || Loaded(host.state).generations == old(Loaded(host.state)).generations then 0 else 1
                case Undo => if Loaded(host.state) == s then 0 else 1
      ensures host.refusals == old(host.refusals) + if purpose == Undo && !ok then 1 else 0
      ensures host.history == old(host.history) + [host.OnDisk()]
    {
      ok := host.WriteState(s, purpose);
      if ok {
        memory := s;
      }
    }

    /** Service and policy calls of an apply. */
    method Activate(checkHealth: bool) returns (ok: bool)
      modifies host`faults, host`signals, host`process
      ensures old(host.faults) <= host.faults && (!ok <==> old(host.faults) < host.faults)
      ensures old(host.signals) <= host.signals
      ensures ok ==>
                && host.process == Some(ActiveProcess(host.links))
                && host.signals == old(host.signals) + ApplySignals(tunEnabled, checkHealth, ActiveProcess(host.links))
    {
      if tunEnabled {
        ok := host.Command(EnablePolicy);
        if !ok { return; }
        ok := host.Command(StartPolicy);
        if !ok { return; }
      } else {
        host.BestEffort(StopPolicy);
        ok := host.Command(RoutesOff);
        if !ok { return; }
        ok := host.Command(FirewallOff);
        if !ok { return; }
        ok := host.Command(DisablePolicy);
        if !ok { return; }
      }
      ok := host.Command(EnableService);
      if !ok { return; }
      ok := host.RestartService();
      if !ok { return; }
      if checkHealth {
        ok := host.CheckHealth();
      }
    }

    /** Build, validate and hand over a candidate that nothing points to yet. */
    method PrepareGeneration() returns (r: Result<Name, ApplyStage>)
      requires |scenes| == |events| && host.Recorded()
      requires Generation(host.serial) !in host.dirs.config
      modifies this`events, this`scenes, host`serial, host`dirs, host`validated, host`tested, host`history, host`faults
      ensures old(host.faults) <= host.faults && (r.Failure? <==> old(host.faults) < host.faults)
      ensures |scenes| == |events|
      ensures events == old(events) + PrepareLog(r)
      ensures host.serial >= old(host.serial)
      ensures host.dirs == old(host.dirs).(config := host.dirs.config)
      ensures old(host.dirs).config.Keys <= host.dirs.config.Keys
      ensures forall n :: n in host.dirs.config && n !in old(host.dirs).config ==> Used(n, host.serial)
      ensures old(host.validated) <= host.validated
      ensures forall n :: n in host.validated && n !in old(host.validated) ==> Used(n, host.serial)
      ensures r.Failure? ==> r.at in {Preparing, Validating, Owning}
      ensures r.Success? ==>
                && r.value !in old(host.dirs).config
                && r.value in host.dirs.config && r.value in host.validated
                && Triple(host.links.core.current, host.links.assets.current, r.value) in host.tested
      ensures host.Continues(old(host.history))
      ensures forall i :: |old(host.history)| <= i < |host.history| ==>
                PrepareCrash(old(host.OnDisk()), host.history[i])
    {
      var ok := host.Attempt(); // routing, fragments, rendering
      if !ok { return Failure(Preparing); }
      var serial := host.UniqueSerial();
      var generation := Generation(serial);
      ok := CreateCandidate(generation);
      if !ok { return Failure(Preparing); }
      r := ValidateCandidate(generation);
    }

    method CreateCandidate(generation: Name) returns (ok: bool)
      modifies host`dirs, host`history, host`faults
      ensures old(host.faults) <= host.faults && (!ok <==> old(host.faults) < host.faults)
      ensures host.dirs == old(host.dirs).(config := host.dirs.config)
      ensures old(host.dirs).config.Keys <= host.dirs.config.Keys <= old(host.dirs).config.Keys + {generation}
      ensures ok ==> generation in host.dirs.config
      ensures host.history == old(host.history) + [host.OnDisk()]
    {
      var content: nat := *;
      ok := host.CreateDir(Config, generation, content);
      if !ok { return; }
      ok := host.Attempt(); // permissions and rendered files
    }

    /** Test the candidate with the active core and assets and hand it over; a candidate that fails is removed. */
    method ValidateCandidate(generation: Name) returns (r: Result<Name, ApplyStage>)
      requires |scenes| == |events| && host.Recorded()
      modifies this`events, this`scenes, host`dirs, host`validated, host`tested, host`history, host`faults
      ensures old(host.faults) <= host.faults && (r.Failure? <==> old(host.faults) < host.faults)
      ensures |scenes| == |events|
      ensures events == old(events) + PrepareLog(r)
      ensures host.dirs == old(host.dirs).(config := host.dirs.config)
      ensures old(host.dirs).config.Keys - {generation} <= host.dirs.config.Keys <= old(host.dirs).config.Keys
      ensures old(host.validated) <= host.validated <= old(host.validated) + {generation}
      ensures r.Failure? ==> r.at in {Validating, Owning}
      ensures r.Success? ==>
                && r.value == generation && host.dirs == old(host.dirs) && generation in host.validated
                && Triple(host.links.core.current, host.links.assets.current, generation) in host.tested
      ensures host.history in {old(host.history), old(host.history) + [host.OnDisk()]} && host.Recorded()
    {
      Emit(ConfigValidationStarted);
      var ok := host.TestConfig(host.links.core.current, host.links.assets.current, generation);
      if !ok {
        Emit(ConfigValidationFailed);
        host.RemoveDir(Config, generation);
        return Failure(Validating);
      }
      Emit(ConfigValidationSucceeded);
      ok := host.Attempt(); // ownership
      if !ok {
        host.RemoveDir(Config, generation);
        return Failure(Owning);
      }
      return Success(generation);
    }

    /**
     Move the pointers, then the state; if either fails the pointers are put back and the
     candidate is removed. The state is not written back, so that a failed write that took
     effect is a lapse.
     */
    method CommitGeneration(generation: Name, selected: Option<string>) returns (r: Result<(), ApplyStage>)
      requires memory == Loaded(host.state) && host.links == memory.generations && host.Recorded()
      requires generation !in host.links.config.Targets()
      requires generation in host.dirs.config && host.links.config.Targets() <= host.dirs.config.Keys
      modifies this`memory, host`links, host`lapses, host`refusals, host`history, host`state, host`dirs, host`faults
      ensures old(host.faults) <= host.faults && (r.Failure? <==> old(host.faults) < host.faults)
      ensures host.links == old(host.links).(config := host.links.config)
      ensures old(host.lapses) <= host.lapses && host.refusals == old(host.refusals)
      ensures r.Success? ==>
                && host.links.config in {old(host.links).config.Switch(generation),
                                         Skipped(old(host.links).config, generation)}
                && (host.lapses == old(host.lapses) ==>
                      host.links.config == old(host.links).config.Switch(generation))
                && host.state == Some(AppliedState(old(memory), generation, selected))
                && memory == AppliedState(old(memory), generation, selected)
                && host.dirs == old(host.dirs)
      ensures r.Failure? ==> r.at in {Switching, WritingState} && memory == old(memory)
      ensures r.Failure? ==>
                CommitReaches(r.at, old(host.links), old(host.state), generation, selected, host.links, host.state)
      ensures r.Failure? && host.lapses == old(host.lapses) ==>
                host.links == old(host.links) && host.state == old(host.state)
      ensures host.dirs == old(host.dirs) ||
              host.dirs == old(host.dirs).(config := old(host.dirs).config - {generation})
      ensures host.Continues(old(host.history))
      ensures forall i :: |old(host.history)| <= i < |host.history| ==>
                ApplyCrash(old(host.links), old(host.dirs), old(host.state), generation, selected, host.history[i])
      ensures r.Success? || host.lapses == old(host.lapses) ==>
                forall i :: |old(host.history)| <= i < |host.history| ==>
                  host.history[i].links.config.Targets() <= host.history[i].dirs.config.Keys
    {
      var oldPair := memory.generations.config;
      var ok := SwitchCandidate(generation);
      if !ok { return Failure(Switching); }
      ok := WriteState(AppliedState(memory, generation, selected), Commit);
      if !ok {
        RestoreStaysInReach(oldPair, generation, host.links.config);
        AbandonCommit(generation, oldPair);
        return Failure(WritingState);
      }
      return Success(());
    }

    /** Move the pointers; if that fails the candidate is removed. */
    method SwitchCandidate(generation: Name) returns (ok: bool)
      modifies host`links, host`lapses, host`history, host`dirs, host`faults
      ensures host.faults == old(host.faults) + if ok then 0 else 1
      ensures host.links == old(host.links).(config := host.links.config)
      ensures host.links.config in SwitchReach(old(host.links).config, generation)
      ensures ok ==> host.links.config in {old(host.links).config.Switch(generation),
                                           Skipped(old(host.links).config, generation)}
      ensures old(host.lapses) <= host.lapses
      ensures host.lapses == old(host.lapses) ==>
                host.links.config == if ok then old(host.links).config.Switch(generation) else old(host.links).config
      ensures host.dirs == old(host.dirs) ||
              (!ok && host.dirs == old(host.dirs).(config := old(host.dirs).config - {generation}))
      ensures host.Continues(old(host.history))
      ensures forall i :: |old(host.history)| <= i < |host.history| ==>
                var d := host.history[i];
                && d.links == host.links.(config := d.links.config) && d.state == host.state
                && d.links.config in SwitchReach(old(host.links).config, generation)
                && (d.dirs == old(host.dirs) || d == host.OnDisk())
    {
      ok := host.SwitchGeneration(Config, generation);
      if !ok {
        host.RemoveDir(Config, generation);
      }
    }

    /** Restore the pointers, whatever that reports, and remove the candidate. */
    method AbandonCommit(generation: Name, oldPair: Pair)
      modifies host`links, host`lapses, host`refusals, host`history, host`dirs
      ensures host.links == old(host.links).(config := host.links.config)
      ensures host.links.config in RestoreRemains(old(host.links).config, oldPair)
      ensures old(host.lapses) <= host.lapses && host.refusals == old(host.refusals)
      ensures host.lapses == old(host.lapses) ==> host.links.config == oldPair
      ensures host.dirs == old(host.dirs) ||
              host.dirs == old(host.dirs).(config := old(host.dirs).config - {generation})
      ensures host.Continues(old(host.history))
      ensures forall i :: |old(host.history)| <= i < |host.history| ==>
                var d := host.history[i];
                && d.links == host.links.(config := d.links.config) && d.state == host.state
                && d.links.config in RestoreRemains(old(host.links).config, oldPair)
                && (d.dirs == old(host.dirs) || d == host.OnDisk())
    {
      var _ := host.RestoreGeneration(Config, oldPair, false);
      host.RemoveDir(Config, generation);
    }

    /** Undo a committed generation whose activation failed. */
    method RestorePrevious(previousState: ManagerState, generation: Name) returns (ok: bool)
      requires |scenes| == |events| && host.Recorded()
      requires host.links == previousState.generations.(config := host.links.config)
      modifies this`memory, this`events, this`scenes
      modifies host`links, host`lapses, host`refusals, host`history, host`state, host`dirs
      modifies host`faults, host`signals, host`process
      ensures host.signals == old(host.signals) + if ok then [Restart(ActiveProcess(host.links))] else []
      ensures old(host.faults) <= host.faults
      ensures |scenes| == |events|
      ensures events == old(events) + if ok then [RollbackStarted, RollbackSucceeded] else [RollbackStarted]
      ensures host.links == previousState.generations.(config := host.links.config)
      ensures host.links.config in RestoreRemains(old(host.links).config, previousState.generations.config)
      ensures host.state == old(host.state) || host.state == Some(RestoredState(previousState))
      ensures host.refusals == old(host.refusals) + if ok then 0 else 1
      ensures old(host.lapses) <= host.lapses && (ok ==> host.lapses == old(host.lapses))
      ensures host.lapses == old(host.lapses) ==>
                host.links == previousState.generations && host.state == Some(RestoredState(previousState))
      ensures ok ==> memory == RestoredState(previousState) && scenes[|scenes| - 1] == Scene(host.links, host.state)
      ensures host.dirs == old(host.dirs) ||
              (ok && host.dirs == old(host.dirs).(config := old(host.dirs).config - {generation}))
      ensures host.Continues(old(host.history))
      ensures forall i :: |old(host.history)| <= i < |host.history| ==>
                var d := host.history[i];
                && d.links == host.links.(config := d.links.config)
                && d.links.config in RestoreRemains(old(host.links).config, previousState.generations.config)
                && (d.state == old(host.state) || d.state == Some(RestoredState(previousState)))
                && (d.dirs == old(host.dirs) || (d.links == previousState.generations && d.dirs == host.dirs))
    {
      Emit(RollbackStarted);
      ok := host.RestoreGeneration(Config, previousState.generations.config, true);
      if !ok { return; }
      ok := WriteState(RestoredState(previousState), Undo);
      if !ok { return; }
      var _ := host.RestartService();
      host.RemoveDir(Config, generation);
      Emit(RollbackSucceeded);
    }

    /** Commit, activate, and stamp a prepared generation, or put everything back. */
    method Deploy(generation: Name, selected: Option<string>) returns (r: Result<Name, ApplyStage>)
      requires memory == Loaded(host.state) && host.links == memory.generations
      requires |scenes| == |events| && host.Recorded()
      requires generation !in host.links.config.Targets()
      requires generation in host.dirs.config && host.links.config.Targets() <= host.dirs.config.Keys
      modifies this`memory, this`events, this`scenes
      modifies host`links, host`lapses, host`refusals, host`history, host`state, host`dirs
      modifies host`faults, host`signals, host`process, host`shortfalls
      ensures Signalled(old(host.signals), r, selected)
      ensures old(host.faults) <= host.faults && (r.Failure? <==> old(host.faults) < host.faults)
      ensures |scenes| == |events|
      ensures events == old(events) + DeployLog(r)
      ensures r == Failure(Activating) ==>
                scenes[|scenes| - 1] == Scene(old(host.links), Some(RestoredState(old(memory))))
      ensures r.Failure? ==> r.at in {Switching, WritingState, Activating, Compensating, HealthStamp}
      ensures r.Success? ==> r.value == generation
      ensures DeployReaches(r, old(host.links), old(host.state), generation, selected, host.links, host.state)
      ensures host.refusals == old(host.refusals) + if r == Failure(Compensating) then 1 else 0
      ensures old(host.lapses) <= host.lapses
      ensures host.lapses == old(host.lapses) ==>
                DeployKept(r, old(host.links), old(host.state), generation, host.links, host.state)
      ensures r.Success? ||
              (r.at in {Switching, WritingState, Activating} && host.lapses == old(host.lapses)) ==>
                memory == Loaded(host.state)
      ensures host.dirs == old(host.dirs).(config := host.dirs.config)
      ensures host.dirs.config.Keys <= old(host.dirs).config.Keys
      ensures host.lapses == old(host.lapses) ==>
                host.links.config.Targets() * old(host.dirs).config.Keys <= host.dirs.config.Keys
      ensures host.Continues(old(host.history))
      ensures forall i :: |old(host.history)| <= i < |host.history| ==>
                ApplyCrash(old(host.links), old(host.dirs), old(host.state), generation, selected, host.history[i])
      ensures host.lapses == old(host.lapses) ==>
                forall i :: |old(host.history)| <= i < |host.history| ==>
                  host.history[i].links.config.Targets() <= host.history[i].dirs.config.Keys
    {
      var previousState := memory;
      var committed := CommitGeneration(generation, selected);
      if committed.Failure? {
        return Failure(committed.at);
      }
      RestoreStaysInReach(previousState.generations.config, generation, host.links.config);
      assert host.links.config.Targets() <= host.dirs.config.Keys;
      ghost var before, past := host.OnDisk(), |host.history|;
      r := Confirm(previousState, generation, selected);
      ConfirmCrashes(old(host.links), old(host.dirs), old(host.state), generation, selected, before, host.OnDisk(),
                     host.history, past);
    }

    /** Activate and stamp what was just committed, or restore what was before it. */
    method Confirm(previousState: ManagerState, generation: Name, selected: Option<string>)
      returns (r: Result<Name, ApplyStage>)
      requires |scenes| == |events| && host.state == Some(memory) && host.Recorded()
      requires host.links == previousState.generations.(config := host.links.config)
      modifies this`memory, this`events, this`scenes
      modifies host`links, host`lapses, host`refusals, host`history, host`state, host`dirs
      modifies host`faults, host`signals, host`process, host`shortfalls
      ensures Signalled(old(host.signals), r, selected)
      ensures old(host.faults) <= host.faults && (r.Failure? <==> old(host.faults) < host.faults)
      ensures |scenes| == |events|
      ensures events == old(events) + DeployLog(r)
      ensures r.Success? ==> r.value == generation
      ensures r.Failure? ==> r.at in {Activating, Compensating, HealthStamp}
      ensures r.Success? || r == Failure(HealthStamp) ==>
                && host.links == old(host.links) && (selected.None? ==> r.Success?)
                && (host.state == Some(old(memory)) || (selected.Some? && IsApplied(old(memory), host.state)))
      ensures r.Success? ==>
                && host.state == Some(memory)
                && (selected.Some? ==> memory.lastHealthcheck.Some? &&
                                       memory == StampedState(old(memory), memory.lastHealthcheck))
      ensures r == Failure(Activating) ==>
                && host.lapses == old(host.lapses)
                && memory == RestoredState(previousState) && scenes[|scenes| - 1] == Scene(host.links, host.state)
      ensures r == Failure(Activating) || r == Failure(Compensating) ==>
                && host.links == previousState.generations.(config := host.links.config)
                && host.links.config in RestoreRemains(old(host.links).config, previousState.generations.config)
                && (host.state == old(host.state) || host.state == Some(RestoredState(previousState)))
                && (host.lapses == old(host.lapses) ==>
                      host.links == previousState.generations && host.state == Some(RestoredState(previousState)))
      ensures host.refusals == old(host.refusals) + if r == Failure(Compensating) then 1 else 0
      ensures old(host.lapses) <= host.lapses
      ensures host.dirs == old(host.dirs).(config := host.dirs.config)
      ensures host.dirs.config.Keys <= old(host.dirs).config.Keys
      ensures r.Success? && host.lapses == old(host.lapses) ==>
                host.links.config.Targets() * old(host.dirs).config.Keys <= host.dirs.config.Keys
      ensures r == Failure(Activating) ==> old(host.dirs).config.Keys - {generation} <= host.dirs.config.Keys
      ensures r == Failure(Compensating) || r == Failure(HealthStamp) ==> host.dirs == old(host.dirs)
      ensures host.Continues(old(host.history))
      ensures forall i :: |old(host.history)| <= i < |host.history| ==>
                ConfirmCrash(old(host.OnDisk()), previousState, old(memory), generation, host.OnDisk(), host.history[i])
    {
      Emit(ServiceRestartStarted);
      var ok := Activate(selected.Some?);
      if !ok {
        ok := RestorePrevious(previousState, generation);
        return Failure(if ok then Activating else Compensating);
      }
      r := Settle(generation, selected);
    }

    /** Stamp the health of what was activated, and prune. */
    method Settle(generation: Name, selected: Option<string>) returns (r: Result<Name, ApplyStage>)
      requires |scenes| == |events| && host.state == Some(memory) && host.Recorded()
      modifies this`memory, this`events, this`scenes
      modifies host`lapses, host`shortfalls, host`signals, host`refusals, host`history, host`state, host`dirs
      modifies host`faults
      ensures host.signals == old(host.signals) + if r.Success? then [Signal.Prune(Config, keepGenerations)] else []
      ensures r.Success? && host.lapses == old(host.lapses) && host.shortfalls == old(host.shortfalls) &&
              host.links.config.Targets() <= old(host.dirs).config.Keys ==>
                host.Trimmed(Config, |old(host.dirs).config|, keepGenerations)
      ensures old(host.shortfalls) <= host.shortfalls
      ensures old(host.faults) <= host.faults && (r.Failure? <==> old(host.faults) < host.faults)
      ensures |scenes| == |events|
      ensures events == old(events) + [ServiceRestartSucceeded]
      ensures r.Success? ==> r.value == generation
      ensures r.Failure? ==> r.at == HealthStamp && selected.Some? && host.dirs == old(host.dirs)
      ensures host.state == Some(old(memory)) || (selected.Some? && IsApplied(old(memory), host.state))
      ensures r.Success? ==>
                && host.state == Some(memory)
                && (if selected.Some?
                    then memory.lastHealthcheck.Some? && memory == StampedState(old(memory), memory.lastHealthcheck)
                    else memory == old(memory))
      ensures old(host.lapses) <= host.lapses && host.refusals == old(host.refusals)
      ensures host.dirs == old(host.dirs).(config := host.dirs.config)
      ensures host.dirs.config.Keys <= old(host.dirs).config.Keys
      ensures host.lapses == old(host.lapses) ==>
                host.links.config.Targets() * old(host.dirs).config.Keys <= host.dirs.config.Keys
      ensures host.Continues(old(host.history))
      ensures forall i :: |old(host.history)| <= i < |host.history| ==>
                var d := host.history[i];
                && d.links == host.links && IsApplied(old(memory), d.state)
                && (d.dirs == old(host.dirs) || d == host.OnDisk())
    {
      Emit(ServiceRestartSucceeded);
      if selected.Some? {
        var ok := StampHealth();
        if !ok { return Failure(HealthStamp); }
      }
      host.Prune(Config, keepGenerations);
      return Success(generation);
    }

    /** A failed write may still have stamped. */
    method StampHealth() returns (ok: bool)
      requires host.state == Some(memory)
      modifies this`memory, host`lapses, host`refusals, host`history, host`state, host`faults
      ensures host.lapses == old(host.lapses) && host.refusals == old(host.refusals)
      ensures host.faults == old(host.faults) + if ok then 0 else 1
      ensures IsApplied(old(memory), host.state)
      ensures ok ==>
                && host.state == Some(memory) && memory.lastHealthcheck.Some?
                && memory == StampedState(old(memory), memory.lastHealthcheck)
      ensures host.history == old(host.history) + [host.OnDisk()]
    {
      var now: nat := *;
      ok := WriteState(StampedState(memory, Some(now)), Record);
    }

    /** Both halves of an apply, with what each did to the host. */
    method PrepareAndDeploy(selected: Option<string>)
      returns (prepared: Result<Name, ApplyStage>, r: Result<Name, ApplyStage>)
      requires Ready()
      modifies this, host
      ensures Signalled(old(host.signals), r, selected)
      ensures old(host.faults) <= host.faults && (r.Failure? <==> old(host.faults) < host.faults)
      ensures |scenes| == |events| && events == old(events) + PrepareLog(prepared) + DeployLog(r)
      ensures r == Failure(Activating) ==>
                scenes[|scenes| - 1] == Scene(old(host.links), Some(RestoredState(old(memory))))
      ensures prepared.Failure? ==>
                && r == prepared && r.at in {Preparing, Validating, Owning}
                && host.links == old(host.links) && host.state == old(host.state) && memory == old(memory)
                && host.lapses == old(host.lapses)
      ensures prepared.Success? ==>
                && prepared.value !in old(host.dirs).config && prepared.value in host.validated
                && (r.Failure? ==> r.at in {Switching, WritingState, Activating, Compensating, HealthStamp})
                && (r.Success? ==> r == prepared && memory == Loaded(host.state) && host.ActiveTested())
                && DeployReaches(r, old(host.links), old(host.state), prepared.value, selected, host.links, host.state)
      ensures host.refusals == old(host.refusals) + if r == Failure(Compensating) then 1 else 0
      ensures old(host.lapses) <= host.lapses
      ensures host.lapses == old(host.lapses) && prepared.Success? ==>
                && DeployKept(r, old(host.links), old(host.state), prepared.value, host.links, host.state)
                && (r.Failure? && r.at !in {HealthStamp, Compensating} ==> memory == Loaded(host.state))
      ensures ConfigDirsKept(old(host.Snap()), host.Snap())
      ensures host.lapses == old(host.lapses) ==> Standing(host.OnDisk())
      ensures host.Continues(old(host.history))
      ensures forall i :: |old(host.history)| <= i < |host.history| ==>
                ApplyCrash(old(host.links), old(host.dirs), old(host.state),
                           if prepared.Success? then prepared.value else Generation(0), selected, host.history[i])
      ensures prepared.Failure? ==>
                forall i :: |old(host.history)| <= i < |host.history| ==> host.history[i].links == old(host.links)
      ensures host.lapses == old(host.lapses) ==>
                forall i :: |old(host.history)| <= i < |host.history| ==> Standing(host.history[i])
    {
      assert !Used(Generation(host.serial), host.serial);
      prepared := PrepareGeneration();
      r := prepared;
      if prepared.Success? {
        r := Deploy(prepared.value, selected);
      }
    }

    /**
     Committed, restored, or committed without its health stamp: never a mixture, unless a call
     lapsed. `RollbackSucceeded` is emitted only when pointers and state are back. Whatever
     the faults, the pointers and the state end where `DeployReaches` says, and if they agree the
     end is a legal one; and a crash on the way leaves what `ApplyCrash` says.
     */
    method ApplyConfig(selected: Option<string>) returns (r: Result<Name, ApplyStage>, ghost candidate: Name)
      requires Ready()
      modifies this, host
      ensures Signalled(old(host.signals), r, selected)
      ensures old(host.faults) <= host.faults && (r.Failure? <==> old(host.faults) < host.faults)
      ensures |scenes| == |events| && events == old(events) + PrepareLog(r) + DeployLog(r)
      ensures forall i :: |old(events)| <= i < |events| && events[i] == RollbackSucceeded ==>
                scenes[i] == Scene(old(host.links), Some(RestoredState(old(memory))))
      ensures host.links != old(host.links) || host.state != old(host.state) ==> candidate !in old(host.dirs).config
      ensures DeployReaches(r, old(host.links), old(host.state), candidate, selected, host.links, host.state)
      ensures host.refusals == old(host.refusals) + if r == Failure(Compensating) then 1 else 0
      ensures old(host.lapses) <= host.lapses
      ensures host.lapses == old(host.lapses) ==>
                && host.Agrees()
                && DeployKept(r, old(host.links), old(host.state), candidate, host.links, host.state)
                && (r.Success? || r.at !in {HealthStamp, Compensating} ==> Ready())
      ensures host.Agrees() ==> host.Ready() && ApplyEnds(r, old(host.Snap()), selected, host.Snap())
      ensures host.Agrees() && host.links != old(host.links) ==> host.links.config.current == Some(candidate)
      ensures r.Success? ==> host.ActiveTested()
      ensures AppliedFields(r, old(memory), candidate, selected, host.state)
      ensures host.Continues(old(host.history))
      ensures forall i :: |old(host.history)| <= i < |host.history| ==>
                && ApplyCrash(old(host.links), old(host.dirs), old(host.state), candidate, selected, host.history[i])
                && (host.history[i].links != old(host.links) ==> candidate in host.validated)
      ensures host.lapses == old(host.lapses) ==>
                forall i :: |old(host.history)| <= i < |host.history| ==> Standing(host.history[i])
    {
      ghost var before, logged := host.Snap(), events;
      var prepared;
      prepared, r := PrepareAndDeploy(selected);
      candidate := if prepared.Success? then prepared.value else Generation(0);
      RollbackIsLast(logged, prepared, r, events);
      ReachedFields(r, before.links, before.state, candidate, selected, host.links, host.state);
      ApplyIsLegal(prepared, r, before, selected, host.Snap());
    }

    /**
     Activate a pair that was just swapped; on any failure, a write that took effect included,
     swap back and write the old state again.
     */
    method CommitGenerationRollback(c: Component, ghost original: Pair, oldState: ManagerState,
                                    rollbackState: ManagerState)
      returns (r: Result<(), ApplyStage>)
      requires memory == oldState == Loaded(host.state) && host.Recorded()
      requires original.current.Some? && original.previous.Some? && host.links.Get(c) in RollbackReach(original)
      modifies this`memory, host`links, host`lapses, host`refusals, host`history, host`state
      modifies host`faults, host`signals, host`process
      ensures r.Success? ==>
                && host.process == Some(ActiveProcess(host.links))
                && host.signals ==
                     old(host.signals) + RollbackSignals(rollbackState.selectedNode.Some?, ActiveProcess(host.links))
      ensures r == Failure(Activating) ==> EndsWith(old(host.signals), host.signals, Restart(ActiveProcess(host.links)))
      ensures old(host.faults) <= host.faults && (r.Failure? <==> old(host.faults) < host.faults)
      ensures host.links == old(host.links).Set(c, host.links.Get(c))
      ensures host.links.Get(c) in RollbackReach(original)
      ensures Loaded(host.state) == oldState || IsRolledBack(rollbackState, host.state)
      ensures r.Success? ==>
                && host.lapses == old(host.lapses) && host.links == old(host.links)
                && host.state == Some(memory)
                && KeptRollback(rollbackState, memory)
      ensures r.Failure? ==> r.at in {Activating, Compensating}
      ensures r.Failure? && host.lapses == old(host.lapses) ==>
                host.links == old(host.links).Set(c, old(host.links).Get(c).Swap()) && Loaded(host.state) == oldState
      ensures r == Failure(Activating) ==> memory == oldState && host.state == Some(oldState)
      ensures host.refusals == old(host.refusals) + if r == Failure(Compensating) then 1 else 0
      ensures old(host.lapses) <= host.lapses
      ensures host.Continues(old(host.history))
      ensures forall i :: |old(host.history)| <= i < |host.history| ==>
                RollbackCrash(c, old(host.OnDisk()), original, oldState, rollbackState, host.history[i])
    {
      var ok := ActivateRollback(rollbackState);
      if !ok {
        ok := UndoRollback(c, original, oldState);
        return Failure(if ok then Activating else Compensating);
      }
      return Success(());
    }

    /** Write the rolled-back state, restart, and stamp a health check. */
    method ActivateRollback(rollbackState: ManagerState) returns (ok: bool)
      requires host.Recorded()
      modifies this`memory, host`lapses, host`refusals, host`history, host`state
      modifies host`faults, host`signals, host`process
      ensures old(host.signals) <= host.signals
      ensures ok ==>
                && host.process == Some(ActiveProcess(host.links))
                && host.signals == old(host.signals) +
                     RollbackSignals(rollbackState.selectedNode.Some?, ActiveProcess(host.links))
      ensures old(host.faults) <= host.faults && (!ok <==> old(host.faults) < host.faults)
      ensures host.lapses == old(host.lapses) && host.refusals == old(host.refusals)
      ensures host.state == old(host.state) || IsRolledBack(rollbackState, host.state)
      ensures ok ==>
                && host.state == Some(memory)
                && KeptRollback(rollbackState, memory)
      ensures host.Continues(old(host.history))
      ensures forall i :: |old(host.history)| <= i < |host.history| ==>
                var d := host.history[i];
                && d == host.OnDisk().(state := d.state)
                && (d.state == old(host.state) || IsRolledBack(rollbackState, d.state))
    {
      ok := WriteState(rollbackState, Record);
      if !ok { return; }
      ok := host.RestartService();
      if !ok { return; }
      if rollbackState.selectedNode.Some? {
        ok := host.CheckHealth();
        if !ok { return; }
        var now: nat := *;
        ok := WriteState(rollbackState.(lastHealthcheck := Some(now)), Record);
      }
    }

    /** Swap back, whatever that reports, and write the old state again. */
    method UndoRollback(c: Component, ghost original: Pair, oldState: ManagerState) returns (ok: bool)
      requires host.Recorded()
      requires original.current.Some? && original.previous.Some? && host.links.Get(c) in RollbackReach(original)
      modifies this`memory, host`links, host`lapses, host`refusals, host`history, host`state
      modifies host`faults, host`signals, host`process
      ensures host.signals == old(host.signals) + if ok then [Restart(ActiveProcess(host.links))] else []
      ensures old(host.faults) <= host.faults
      ensures host.links == old(host.links).Set(c, host.links.Get(c))
      ensures host.links.Get(c) in RollbackReach(original)
      ensures host.state == old(host.state) || host.state == Some(oldState)
      ensures ok ==> memory == oldState && host.state == Some(oldState)
      ensures old(host.lapses) <= host.lapses
      ensures host.lapses == old(host.lapses) ==>
                host.links.Get(c) == old(host.links).Get(c).Swap() && Loaded(host.state) == oldState
      ensures host.refusals == old(host.refusals) + if ok then 0 else 1
      ensures host.Continues(old(host.history))
      ensures forall i :: |old(host.history)| <= i < |host.history| ==>
                var d := host.history[i];
                && d.links == host.links.Set(c, d.links.Get(c)) && d.links.Get(c) in RollbackReach(original)
                && d.dirs == host.dirs && (d.state == old(host.state) || d.state == host.state)
    {
      SwapStaysInReach(original, host.links.Get(c));
      host.SwapBack(c);
      ok := WriteState(oldState, Undo);
      if ok {
        var _ := host.RestartService();
      }
    }

    /** The first swap of a rollback. */
    method Swap(c: Component) returns (ok: bool)
      requires host.Ready()
      modifies host`links, host`lapses, host`history, host`faults
      ensures old(host.faults) <= host.faults
      ensures !ok <==> old(host.faults) < host.faults
      ensures host.links == old(host.links).Set(c, host.links.Get(c))
      ensures host.links.Get(c) in RollbackReach(old(host.links).Get(c))
      ensures ok ==> old(host.links).Get(c).current.Some? && old(host.links).Get(c).previous.Some?
      ensures host.links != old(host.links) ==> old(host.links).Get(c).previous.Some?
      ensures old(host.lapses) <= host.lapses
      ensures host.lapses == old(host.lapses) ==>
                host.links == if ok then old(host.links).Set(c, old(host.links).Get(c).Swap()) else old(host.links)
      ensures host.Continues(old(host.history))
      ensures forall i :: |old(host.history)| <= i < |host.history| ==>
                var d := host.history[i];
                d == host.OnDisk().(links := host.links.Set(c, d.links.Get(c))) &&
                d.links.Get(c) in RollbackReach(old(host.links).Get(c))
    {
      assert host.links.Get(c).Ordered();
      ok := host.RollbackGeneration(c);
    }

    /**
     `ConfigRollback`, `CoreRollback` and `AssetRollback`: one pair is exchanged on disk and in
     state together, or everything is as before, unless a call lapsed.
     */
    method ManualRollback(c: Component) returns (r: Result<(), ApplyStage>)
      requires Ready()
      modifies this, host
      ensures r.Success? ==>
                && host.process == Some(ActiveProcess(host.links))
                && host.signals ==
                     old(host.signals) + RollbackSignals(old(memory).selectedNode.Some?, ActiveProcess(host.links))
      ensures r == Failure(Activating) ==> EndsWith(old(host.signals), host.signals, Restart(ActiveProcess(host.links)))
      ensures old(host.faults) <= host.faults
      ensures r.Failure? <==> old(host.faults) < host.faults
      ensures host.refusals == old(host.refusals) + if r == Failure(Compensating) then 1 else 0
      ensures old(host.lapses) <= host.lapses
      ensures host.lapses == old(host.lapses) ==>
                && host.Agrees()
                && (r != Failure(Compensating) ==> Ready())
                && host.links == (if r.Success?
                                  then old(host.links).Set(c, old(host.links).Get(c).Swap())
                                  else old(host.links))
                && (r.Failure? ==> Loaded(host.state) == old(Loaded(host.state)))
      ensures r.Success? ==>
                && host.state.Some? && host.state.value.selectedNode == old(memory).selectedNode
                && host.state.value.generations ==
                     old(memory).generations.Set(c, Pair(old(memory).generations.Get(c).previous,
                                                         old(memory).generations.Get(c).current))
                && host.state.value.installedBackends == old(memory).installedBackends
                && host.state.value.createdIdentities == old(memory).createdIdentities
                && (old(memory).selectedNode.None? ==> host.state.value.lastHealthcheck == old(memory).lastHealthcheck)
                && (old(memory).selectedNode.Some? ==> host.state.value.lastHealthcheck.Some?)
                && host.state.value.lastRollbackReason == Some(Reason(c))
      ensures host.Agrees() ==> host.Ready() && RollbackEnds(r, old(host.Snap()), c, host.Snap())
      ensures host.Continues(old(host.history))
      ensures forall i :: |old(host.history)| <= i < |host.history| ==>
                RollbackCrash(c, old(host.OnDisk()), old(host.links).Get(c), old(memory),
                              RolledBackState(old(memory), c), host.history[i])
    {
      ghost var before := host.Snap();
      ghost var original := host.links.Get(c);
      var oldState := memory;
      var ok := Swap(c);
      assert forall i :: |old(host.history)| <= i < |host.history| ==>
          RollbackCrash(c, old(host.OnDisk()), original, oldState, RolledBackState(oldState, c), host.history[i]);
      if !ok {
        RollbackIsLegal(Failure(MissingGeneration), before, c, host.Snap());
        return Failure(MissingGeneration);
      }
      r := FinishRollback(c, before, oldState);
    }

    /** What follows the first swap, from where that left the host. */
    method FinishRollback(c: Component, ghost before: Snapshot, oldState: ManagerState)
      returns (r: Result<(), ApplyStage>)
      requires memory == oldState == Loaded(host.state) && host.Recorded() && |scenes| == |events|
      requires Inv(before) && host.Snap() == before.(links := before.links.Set(c, host.links.Get(c)))
      requires before.links.Get(c).current.Some? && before.links.Get(c).previous.Some?
      requires host.links.Get(c) in RollbackReach(before.links.Get(c))
      modifies this`memory, host`links, host`lapses, host`refusals, host`history, host`state
      modifies host`faults, host`signals, host`process
      ensures r.Success? ==>
                && host.process == Some(ActiveProcess(host.links))
                && host.signals ==
                     old(host.signals) + RollbackSignals(oldState.selectedNode.Some?, ActiveProcess(host.links))
      ensures r == Failure(Activating) ==> EndsWith(old(host.signals), host.signals, Restart(ActiveProcess(host.links)))
      ensures old(host.faults) <= host.faults && (r.Failure? <==> old(host.faults) < host.faults)
      ensures host.refusals == old(host.refusals) + if r == Failure(Compensating) then 1 else 0
      ensures r.Failure? ==> r.at in {Activating, Compensating}
      ensures old(host.lapses) <= host.lapses
      ensures host.lapses == old(host.lapses) && old(host.links).Get(c) == before.links.Get(c).Swap() ==>
                && host.Agrees()
                && (r != Failure(Compensating) ==> Ready())
                && host.links == (if r.Success? then old(host.links) else before.links)
                && (r.Failure? ==> Loaded(host.state) == oldState)
      ensures r.Success? ==> host.state == Some(memory) && KeptRollback(RolledBackState(oldState, c), memory)
      ensures host.Agrees() ==> host.Ready() && RollbackEnds(r, before, c, host.Snap())
      ensures host.Continues(old(host.history))
      ensures forall i :: |old(host.history)| <= i < |host.history| ==>
                RollbackCrash(c, Disk(before.links, before.dirs, before.state), before.links.Get(c), oldState,
                              RolledBackState(oldState, c), host.history[i])
    {
      r := CommitGenerationRollback(c, before.links.Get(c), oldState, RolledBackState(oldState, c));
      assert host.Snap() == before.(links := before.links.Set(c, host.links.Get(c)), state := host.state);
      RollbackIsLegal(r, before, c, host.Snap());
    }
  }

  function RestoredState(state: ManagerState): ManagerState {
    state.(lastRollbackReason := Some(CONFIG_ROLLBACK_REASON))
  }

  function StampedState(state: ManagerState, stamp: Option<nat>): ManagerState {
    state.(lastHealthcheck := stamp, lastRollbackReason := None)
  }

  /**
   What a crash during an apply can leave, whatever the faults: the configuration pair is
   somewhere on the way of a switch to the candidate, the state is the old one, the applied one
   or a restored or stamped one, and nothing else but configuration generations has changed.
   */
  ghost predicate ApplyCrash(links: Trio<Pair>, dirs: Trio<map<Name, Dir>>, state: Option<ManagerState>,
                             generation: Name, selected: Option<string>, d: Disk) {
    var applied := AppliedState(Loaded(state), generation, selected);
    && d.links == links.(config := d.links.config) && d.links.config in SwitchReach(links.config, generation)
    && d.dirs == dirs.(config := d.dirs.config)
    && (d.state == state || d.state == Some(RestoredState(Loaded(state))) || IsApplied(applied, d.state))
  }

  /** The part of it that falls after the commit, on the way from `before` to `after`. */
  ghost predicate ConfirmCrash(before: Disk, previousState: ManagerState, applied: ManagerState, generation: Name,
                               after: Disk, d: Disk) {
    && d.links == previousState.generations.(config := d.links.config)
    && d.links.config in RestoreRemains(before.links.config, previousState.generations.config)
    && (d.state == Some(RestoredState(previousState)) || IsApplied(applied, d.state))
    && d.dirs == before.dirs.(config := d.dirs.config)
    && (d.dirs == before.dirs || d == after ||
        (d.links == previousState.generations && before.dirs.config.Keys - {generation} <= d.dirs.config.Keys))
  }

  lemma ConfirmCrashes(links: Trio<Pair>, dirs: Trio<map<Name, Dir>>, state: Option<ManagerState>, generation: Name,
                       selected: Option<string>, before: Disk, after: Disk, history: seq<Disk>, past: nat)
    requires links == Loaded(state).generations && generation !in links.config.Targets()
    requires links.config.Targets() <= dirs.config.Keys && generation in dirs.config
    requires before.links == links.(config := before.links.config) && before.dirs == dirs
    requires before.links.config in SwitchReach(links.config, generation)
    requires forall i :: past <= i < |history| ==>
               ConfirmCrash(before, Loaded(state), AppliedState(Loaded(state), generation, selected), generation, after,
                            history[i])
    ensures forall i :: past <= i < |history| ==>
              ApplyCrash(links, dirs, state, generation, selected, history[i])
    ensures after.links.config.Targets() <= after.dirs.config.Keys ==>
              forall i :: past <= i < |history| ==>
                history[i].links.config.Targets() <= history[i].dirs.config.Keys
  {
    RestoreStaysInReach(links.config, generation, before.links.config);
  }

  /** Nothing but new configuration generations. */
  predicate PrepareCrash(before: Disk, d: Disk) {
    && d == before.(dirs := before.dirs.(config := d.dirs.config))
    && before.dirs.config.Keys <= d.dirs.config.Keys
  }

  /** The applied state, stamped or not. */
  ghost predicate IsApplied(applied: ManagerState, state: Option<ManagerState>) {
    state.Some? && (state.value == applied || state.value == StampedState(applied, state.value.lastHealthcheck))
  }

  /**
   A crash during an apply leaves pointers and state in agreement if and only if both are as
   before or both are the candidate's: it is exactly the time between the switch and the state
   write, and between the restoring of one and of the other, that a crash breaks.
   */
  lemma ApplyCrashAgreesIff(s: Snapshot, generation: Name, selected: Option<string>, d: Disk)
    requires Inv(s) && generation !in s.dirs.config
    requires ApplyCrash(s.links, s.dirs, s.state, generation, selected, d)
    ensures Agreeing(d) <==>
            if IsApplied(AppliedState(Loaded(s.state), generation, selected), d.state)
            then d.links.config == s.links.config.Switch(generation)
            else d.links == s.links
    ensures d.links.config.current == s.links.config.current || d.links.config.current == Some(generation)
  {
    assert s.links.config.Targets() <= s.dirs.config.Keys;
    assert d.links == d.links.(config := d.links.config);
  }

  /** Everything a failed commit can leave in pointers and state, whatever the faults. */
  ghost predicate CommitReaches(at: ApplyStage, links: Trio<Pair>, state: Option<ManagerState>, generation: Name,
                                selected: Option<string>, links': Trio<Pair>, state': Option<ManagerState>) {
    && links' == links.(config := links'.config) && links'.config in SwitchReach(links.config, generation)
    && (state' == state || (at == WritingState && state' == Some(AppliedState(Loaded(state), generation, selected))))
  }

  /** Everything an apply can leave in pointers and state, whatever the faults. */
  ghost predicate DeployReaches(r: Result<Name, ApplyStage>, links: Trio<Pair>, state: Option<ManagerState>,
                                generation: Name, selected: Option<string>,
                                links': Trio<Pair>, state': Option<ManagerState>) {
    var committed := {links.config.Switch(generation), Skipped(links.config, generation)};
    var applied := AppliedState(Loaded(state), generation, selected);
    var restored := RestoredState(Loaded(state));
    && links' == links.(config := links'.config)
    && match r
       case Success(_) =>
         && links'.config in committed
         && (selected.None? ==> state' == Some(applied))
         && (selected.Some? ==> state'.Some? && state'.value.lastHealthcheck.Some? &&
                                state'.value == StampedState(applied, state'.value.lastHealthcheck))
       case Failure(HealthStamp) =>
         && links'.config in committed && selected.Some? && state'.Some?
         && (state'.value == applied || state'.value == StampedState(applied, state'.value.lastHealthcheck))
       case Failure(Activating) => links' == links && state' == Some(restored)
       case Failure(Compensating) =>
         && links'.config in SwitchReach(links.config, generation)
         && (state' == Some(applied) || state' == Some(restored))
       case Failure(at) =>
         if at == Switching || at == WritingState
         then CommitReaches(at, links, state, generation, selected, links', state')
         else links' == links && state' == state
  }

  /**
   The same, field by field, for the ends whose state is certain: an apply records the selection
   and the candidate, a restored one its reason, and neither touches backends and identities.
   */
  ghost predicate AppliedFields(r: Result<Name, ApplyStage>, was: ManagerState, candidate: Name,
                                selected: Option<string>, state': Option<ManagerState>) {
    && (r.Success? || r == Failure(HealthStamp) ==>
          && state'.Some? && state'.value.selectedNode == selected
          && state'.value.generations ==
               Trio(was.generations.core, was.generations.assets, Pair(Some(candidate), was.generations.config.current))
          && state'.value.installedBackends == was.installedBackends
          && state'.value.createdIdentities == was.createdIdentities
          && (selected.None? ==>
                && state'.value.lastHealthcheck == was.lastHealthcheck
                && state'.value.lastRollbackReason == was.lastRollbackReason))
    && (r.Success? && selected.Some? ==>
          state'.value.lastHealthcheck.Some? && state'.value.lastRollbackReason.None?)
    && (r == Failure(Activating) ==>
          && state'.Some? && state'.value.generations == was.generations
          && state'.value.selectedNode == was.selectedNode
          && state'.value.installedBackends == was.installedBackends
          && state'.value.createdIdentities == was.createdIdentities
          && state'.value.lastHealthcheck == was.lastHealthcheck
          && state'.value.lastRollbackReason == Some("configuration activation or healthcheck failed"))
  }

  lemma ReachedFields(r: Result<Name, ApplyStage>, links: Trio<Pair>, state: Option<ManagerState>, candidate: Name,
                      selected: Option<string>, links': Trio<Pair>, state': Option<ManagerState>)
    requires DeployReaches(r, links, state, candidate, selected, links', state')
    ensures AppliedFields(r, Loaded(state), candidate, selected, state')
  {
  }

  /** Which of those ends is reached when no call lapsed: committed as wanted, or everything back. */
  ghost predicate DeployKept(r: Result<Name, ApplyStage>, links: Trio<Pair>, state: Option<ManagerState>,
                             generation: Name, links': Trio<Pair>, state': Option<ManagerState>) {
    if r.Success? || r == Failure(HealthStamp) then
      links' == links.(config := links.config.Switch(generation))
    else
      && links' == links
      && state' == if r.at == Activating || r.at == Compensating
                   then Some(RestoredState(Loaded(state)))
                   else state
  }

  /**
   The legal ends of an apply. After a failure it normally ends as before, or restored; when
   the undoing itself fails it ends so or still committed, but not in between.
   */
  ghost predicate ApplyEnds(r: Result<Name, ApplyStage>, s: Snapshot, selected: Option<string>, s': Snapshot) {
    if s'.links != s.links then
      && (r.Success? || r.at in {HealthStamp, WritingState, Compensating})
      && s'.links.config.current.Some?
      && (r.Success? ==> s'.links.config.current == Some(r.value))
      && Step(s, HOLD.(config := To(s'.links.config.current.value)), s')
      && DeployReaches(r, s.links, s.state, s'.links.config.current.value, selected, s'.links, s'.state)
    else
      && r.Failure? && r.at !in {HealthStamp, MissingGeneration}
      && Idle(s, s')
      && s'.state == if r.at == Activating || r.at == Compensating
                     then Some(RestoredState(Loaded(s.state)))
                     else s.state
  }

  /** The rolled-back state, stamped exactly when a node is selected. */
  ghost predicate KeptRollback(rollbackState: ManagerState, state: ManagerState) {
    && state == rollbackState.(lastHealthcheck := state.lastHealthcheck)
    && (rollbackState.selectedNode.None? ==> state == rollbackState)
    && (rollbackState.selectedNode.Some? ==> state.lastHealthcheck.Some?)
  }

  /** The rolled-back state, stamped or not. */
  ghost predicate IsRolledBack(rollbackState: ManagerState, state: Option<ManagerState>) {
    state.Some? && state.value == rollbackState.(lastHealthcheck := state.value.lastHealthcheck)
  }

  /**
   What a crash during a manual rollback can leave, whatever the faults: each pointer of the pair
   on one of its two directories, and the old state or the rolled-back one.
   */
  ghost predicate RollbackCrash(c: Component, before: Disk, original: Pair, oldState: ManagerState,
                                rollbackState: ManagerState, d: Disk) {
    && d.links == before.links.Set(c, d.links.Get(c)) && d.links.Get(c) in RollbackReach(original)
    && d.dirs == before.dirs
    && (Loaded(d.state) == oldState || IsRolledBack(rollbackState, d.state))
  }

  lemma RollbackCrashStands(s: Snapshot, c: Component, d: Disk)
    requires Inv(s)
    requires RollbackCrash(c, Disk(s.links, s.dirs, s.state), s.links.Get(c), Loaded(s.state),
                           RolledBackState(Loaded(s.state), c), d)
    ensures Standing(d)
  {
    assert s.links == s.links.Set(c, s.links.Get(c));
    assert d.links.Get(c).Targets() <= s.links.Get(c).Targets();
  }

  /** Such a crash leaves agreement if and only if both are as before or both are exchanged. */
  lemma RollbackCrashAgreesIff(s: Snapshot, c: Component, d: Disk)
    requires Inv(s) && s.links.Get(c).previous.Some?
    requires RollbackCrash(c, Disk(s.links, s.dirs, s.state), s.links.Get(c), Loaded(s.state),
                           RolledBackState(Loaded(s.state), c), d)
    ensures Standing(d)
    ensures Agreeing(d) <==>
            d.links == if Loaded(d.state) == Loaded(s.state) then s.links
                       else s.links.Set(c, s.links.Get(c).Swap())
  {
    assert d.links == d.links.Set(c, d.links.Get(c));
    assert s.links == s.links.Set(c, s.links.Get(c));
  }

  /**
   A manual rollback exchanges one pair, or leaves the host exactly as it was. Where the undoing
   itself failed without any effect, the pair stays exchanged although an error is returned.
   */
  ghost predicate RollbackEnds(r: Result<(), ApplyStage>, s: Snapshot, c: Component, s': Snapshot) {
    var rolledBack := RolledBackState(Loaded(s.state), c);
    if s'.links != s.links then
      && (r.Success? || r == Failure(Compensating))
      && Step(s, ExchangeOnly(c), s')
      && Loaded(s'.state) == rolledBack.(lastHealthcheck := Loaded(s'.state).lastHealthcheck)
      && (r.Success? && rolledBack.selectedNode.None? ==> Loaded(s'.state) == rolledBack)
      && (r.Success? && rolledBack.selectedNode.Some? ==> Loaded(s'.state).lastHealthcheck.Some?)
    else
      && r.Failure?
      && Idle(s, s')
      && s' == s.(state := s'.state)
      && Loaded(s'.state) == Loaded(s.state)
  }

  /** Where a manual rollback that ends in agreement ends legally. */
  lemma RollbackIsLegal(r: Result<(), ApplyStage>, s: Snapshot, c: Component, s': Snapshot)
    requires Inv(s) && s' == s.(links := s'.links, state := s'.state)
    requires s'.links == s.links.Set(c, s'.links.Get(c))
    requires r != Failure(MissingGeneration) ==> s.links.Get(c).current.Some? && s.links.Get(c).previous.Some?
    requires Loaded(s'.state) == Loaded(s.state) || IsRolledBack(RolledBackState(Loaded(s.state), c), s'.state)
    requires r == Failure(MissingGeneration) || r == Failure(Activating) ==> Loaded(s'.state) == Loaded(s.state)
    requires r.Failure? ==> r.at in {MissingGeneration, Activating, Compensating}
    requires r.Success? ==> s'.state.Some? && KeptRollback(RolledBackState(Loaded(s.state), c), s'.state.value)
    ensures s'.links == Fields(s') ==> RollbackEnds(r, s, c, s') && Inv(s')
    ensures s'.links == (if r.Success? then s.links.Set(c, s.links.Get(c).Swap()) else s.links) &&
            (r.Failure? ==> Loaded(s'.state) == Loaded(s.state)) ==>
              s'.links == Fields(s')
  {
    if s'.links == Fields(s') {
      assert s.links.Set(c, s.links.Get(c)) == s.links;
      RollbackMoves(s'.links != s.links, s, c, s');
    }
  }

  lemma RollbackMoves(success: bool, s: Snapshot, c: Component, s': Snapshot)
    requires Inv(s) && s' == s.(links := s'.links, state := s'.state)
    requires success ==> s.links.Get(c).current.Some? && s.links.Get(c).previous.Some?
    requires s'.links == if success then s.links.Set(c, s.links.Get(c).Swap()) else s.links
    requires Fields(s') == if success then Fields(s).Set(c, Fields(s).Get(c).Swap()) else Fields(s)
    ensures Step(s, if success then ExchangeOnly(c) else HOLD, s') && Inv(s')
  {
    StepKeepsInv(s, if success then ExchangeOnly(c) else HOLD, s');
  }

  /** Only the configuration generations were touched. */
  ghost predicate ConfigHousekeeping(s: Snapshot, s': Snapshot) {
    ConfigDirsKept(s, s') && s'.links.config.Targets() <= s'.dirs.config.Keys
  }

  ghost predicate ConfigDirsKept(s: Snapshot, s': Snapshot) {
    && s'.dirs == s.dirs.(config := s'.dirs.config)
    && s.serial <= s'.serial
    && s.validated <= s'.validated
    && (forall n :: n in s'.dirs.config && n !in s.dirs.config ==> Used(n, s'.serial))
    && (forall n :: n in s'.validated && n !in s.validated ==> Used(n, s'.serial))
  }

  lemma ConfigIdle(s: Snapshot, s': Snapshot)
    requires Inv(s) && ConfigHousekeeping(s, s')
    requires s'.links == s.links && Fields(s') == Fields(s)
    ensures Idle(s, s') && Inv(s')
  {
    HousekeepingIsIdle(s, s');
  }

  /** No pointer and no state was touched. */
  lemma AbandonedIsLegal(r: Result<Name, ApplyStage>, s: Snapshot, selected: Option<string>, s': Snapshot)
    requires Inv(s) && ConfigHousekeeping(s, s')
    requires s'.links == s.links && s'.state == s.state
    requires r.Failure? && r.at in {Preparing, Validating, Owning}
    ensures ApplyEnds(r, s, selected, s') && Inv(s')
  {
    ConfigIdle(s, s');
  }

  /** Of the pointers and the state that a deployment can leave, those that agree make a legal end. */
  lemma DeployedIsLegal(r: Result<Name, ApplyStage>, s: Snapshot, generation: Name, selected: Option<string>,
                        s': Snapshot)
    requires Inv(s) && ConfigHousekeeping(s, s') && generation !in s.dirs.config && generation in s'.validated
    requires r.Success? ==> r.value == generation
    requires r.Failure? ==> r.at in {Switching, WritingState, Activating, Compensating, HealthStamp}
    requires DeployReaches(r, s.links, s.state, generation, selected, s'.links, s'.state)
    requires s'.links == Fields(s')
    ensures ApplyEnds(r, s, selected, s') && Inv(s')
    ensures s'.links != s.links ==> s'.links.config.current == Some(generation)
  {
    assert s.links.config == Fields(s).config && s.links.config.Ordered();
    assert generation !in s.links.config.Targets();
    if s'.links != s.links {
      ConfigCommitted(s, generation, s');
    } else {
      assert s.links.config.current != Some(generation);
      ConfigIdle(s, s');
    }
  }

  /** An apply that ends in agreement ends legally, and one in which no call lapsed ends in agreement. */
  lemma ApplyIsLegal(prepared: Result<Name, ApplyStage>, r: Result<Name, ApplyStage>, s: Snapshot,
                     selected: Option<string>, s': Snapshot)
    requires Inv(s) && ConfigDirsKept(s, s')
    requires prepared.Failure? ==>
               r == prepared && r.at in {Preparing, Validating, Owning} && s'.links == s.links && s'.state == s.state
    requires prepared.Success? ==>
               && prepared.value !in s.dirs.config && prepared.value in s'.validated
               && (r.Failure? ==> r.at in {Switching, WritingState, Activating, Compensating, HealthStamp})
               && (r.Success? ==> r == prepared)
               && DeployReaches(r, s.links, s.state, prepared.value, selected, s'.links, s'.state)
    ensures s'.links == Fields(s') && s'.links.config.Targets() <= s'.dirs.config.Keys ==>
              && ApplyEnds(r, s, selected, s') && Inv(s')
              && (s'.links != s.links ==> prepared.Success? && s'.links.config.current == Some(prepared.value))
    ensures prepared.Success? && DeployKept(r, s.links, s.state, prepared.value, s'.links, s'.state) ==>
              s'.links == Fields(s')
  {
    if s'.links == Fields(s') && s'.links.config.Targets() <= s'.dirs.config.Keys {
      if prepared.Success? {
        DeployedIsLegal(r, s, prepared.value, selected, s');
      } else {
        AbandonedIsLegal(r, s, selected, s');
      }
    }
  }

  /**
   A commit write that took effect although it failed breaks the agreement: the pointers are put
   back, the state is not.
   */
  lemma StrandedApply(s: Snapshot, generation: Name, selected: Option<string>, written: Option<ManagerState>)
    requires Inv(s) && generation !in s.dirs.config
    requires CommitReaches(WritingState, s.links, s.state, generation, selected, s.links, written)
    ensures Inv(s.(state := written)) <==> written == s.state
  {
    StrandedWrite(s, AppliedState(Loaded(s.state), generation, selected));
    assert s.(state := s.state) == s;
  }

  /** In the log of an apply `RollbackSucceeded` can only be the last event, and only after a failed activation. */
  lemma RollbackIsLast(before: seq<Event>, prepared: Result<Name, ApplyStage>, r: Result<Name, ApplyStage>,
                       after: seq<Event>)
    requires after == before + PrepareLog(prepared) + DeployLog(r)
    ensures forall i :: |before| <= i < |after| && after[i] == RollbackSucceeded ==>
            r == Failure(Activating) && i == |after| - 1
  {
    var middle := before + PrepareLog(prepared);
    var log := PrepareLog(prepared);
    assert forall k :: 0 <= k < |log| ==> log[k] != RollbackSucceeded;
    assert forall i :: |before| <= i < |middle| ==> after[i] == log[i - |before|];
    forall i | |before| <= i < |after| && after[i] == RollbackSucceeded
      ensures r == Failure(Activating) && i == |after| - 1
    {
      assert i >= |middle|;
      assert after[i] == DeployLog(r)[i - |middle|];
    }
  }

  lemma ConfigCommitted(s: Snapshot, generation: Name, s': Snapshot)
    requires Inv(s) && ConfigHousekeeping(s, s')
    requires generation !in s.dirs.config && generation in s'.validated
    requires s'.links == s.links.(config := s.links.config.Switch(generation))
    requires Fields(s') == Fields(s).(config := Fields(s).config.Shift(generation))
    ensures Step(s, HOLD.(config := To(generation)), s') && Inv(s')
  {
    StepKeepsInv(s, HOLD.(config := To(generation)), s');
  }
}

/**
 The operating system as the manager uses it: six symlinks, the generation
 directories, state.json and the `xray` process. Every port call may fail.

 `lapses` counts the calls that fell short of what they are for: a `switch_generation` or
 `rollback_generation` that failed with an effect or succeeded without having saved
 `current`, a link that could not be read where that matters, a failed commit write that
 changed the generation fields, a restore, a compensating write or a compensating rename
 without its effect, and a removal of a tree that stopped halfway. Only the calls
 themselves count; what an operation makes of them is for its contract to say.
 `shortfalls` counts the rounds of pruning that gave up or could not read an entry.
 `refusals` counts the compensating calls that reported failure to a caller who minds, and
 `faults` the other calls that reported failure to one who asked.
 `history` holds every disk that a crash could have left. `signals` holds every call to the
 services and every round of pruning in order, and `process` what xray.service was last started with.
*/
module Host {
  import opened Prelude
  import opened Domain
  import opened Transactions
  import Retention

  /** The directories a process of xray.service was started with. */
  type Process = Trio<Option<Name>>

  /**
   A call to systemctl, to the policy or to the health check, with the process it is about, or a
   round of pruning with its limit.
   */
  datatype Signal =
    | ReloadUnits
    | EnablePolicy | StartPolicy | StopPolicy | DisablePolicy
    | RoutesOff | FirewallOff | PolicyOff
    | EnableService
    | Restart(process: Process)
    | StartNow(process: Process)
    | Health(running: Option<Process>)
    | Prune(component: Component, keep: nat)

  function ActiveProcess(links: Trio<Pair>): (process: Process)
    ensures forall c :: process.Get(c) == links.Get(c).current
  {
    Trio(links.core.current, links.assets.current, links.config.current)
  }

  /** What a write of state.json is for, as far as a lapse is concerned. */
  datatype Purpose = Record | Commit | Undo

  class Host {
    var links: Trio<Pair>
    var dirs: Trio<map<Name, Dir>>
    var state: Option<ManagerState>
    var serial: nat
    /** Users, groups and memberships that were created here. */
    ghost var identities: set<string>
    ghost var signals: seq<Signal>
    ghost var process: Option<Process>
    ghost var faults: nat
    ghost var lapses: nat
    ghost var shortfalls: nat
    ghost var refusals: nat
    ghost var history: seq<Disk>
    /** Config generations that ever passed `test_config`. */
    ghost var validated: set<Name>
    /** Triples that passed `test_config` with the directories' present content. */
    ghost var tested: set<Triple>
    /** Contents whose staged copy answered `version`, and directories that answered it in place. */
    ghost var staged: set<nat>
    ghost var answered: set<(Name, nat)>

    ghost function Snap(): Snapshot
      reads this
    {
      Snapshot(links, dirs, state, serial, validated)
    }

    /** What a crash now would leave. */
    function OnDisk(): Disk
      reads this
    {
      Disk(links, dirs, state)
    }

    ghost predicate Ready()
      reads this
    {
      Inv(Snap()) && Recorded()
    }

    /** The history ends with the disk as it is. */
    ghost predicate Recorded()
      reads this
    {
      history != [] && history[|history| - 1] == OnDisk()
    }

    /** The history has gone on from `past` to the disk as it is. */
    ghost predicate Continues(past: seq<Disk>)
      reads this
    {
      past <= history && Recorded()
    }

    /** The combination of directories that the service would run now has passed `test_config`. */
    ghost predicate ActiveTested()
      reads this
    {
      && links.config.current.Some?
      && Triple(links.core.current, links.assets.current, links.config.current.value) in tested
    }

    constructor ()
      ensures Snap() == EMPTY_HOST && Ready()
      ensures signals == [] && process == None
      ensures faults == 0 && lapses == 0 && shortfalls == 0 && refusals == 0 && history == [OnDisk()]
    {
      links := NO_LINKS;
      dirs := Trio(map[], map[], map[]);
      state := None;
      serial := 0;
      validated, tested, staged, answered := {}, {}, {}, {};
      signals, process := [], None;
      identities, faults, lapses, shortfalls, refusals := {}, 0, 0, 0, 0;
      history := [Disk(NO_LINKS, Trio(map[], map[], map[]), None)];
    }

    /** A port call that touches nothing modelled here. */
    method Attempt() returns (ok: bool)
      modifies this`faults
      ensures faults == old(faults) + if ok then 0 else 1
    {
      ok := *;
      faults := faults + if ok then 0 else 1;
    }

    /** A service or policy call that must succeed. */
    method Command(ghost signal: Signal) returns (ok: bool)
      modifies this`faults, this`signals
      ensures faults == old(faults) + if ok then 0 else 1
      ensures signals == old(signals) + [signal]
    {
      ok := *;
      faults := faults + if ok then 0 else 1;
      signals := signals + [signal];
    }

    /** A service or policy call whose result nobody looks at. */
    method BestEffort(ghost signal: Signal)
      modifies this`signals
      ensures signals == old(signals) + [signal]
    {
      signals := signals + [signal];
    }

    /** `systemctl restart xray.service`. */
    method RestartService() returns (ok: bool)
      modifies this`faults, this`signals, this`process
      ensures faults == old(faults) + if ok then 0 else 1
      ensures signals == old(signals) + [Restart(ActiveProcess(links))]
      ensures ok ==> process == Some(ActiveProcess(links))
    {
      ok := Command(Restart(ActiveProcess(links)));
      process := *;
      if ok {
        process := Some(ActiveProcess(links));
      }
    }

    /** `systemctl enable --now xray.service`, which leaves a running process alone. */
    method StartService() returns (ok: bool)
      modifies this`faults, this`signals, this`process
      ensures faults == old(faults) + if ok then 0 else 1
      ensures signals == old(signals) + [StartNow(ActiveProcess(links))]
      ensures ok ==> process == if old(process).None? then Some(ActiveProcess(links)) else old(process)
    {
      ok := Command(StartNow(ActiveProcess(links)));
      ghost var running := process;
      process := *;
      if ok {
        process := if running.None? then Some(ActiveProcess(links)) else running;
      }
    }

    method CheckHealth() returns (ok: bool)
      modifies this`faults, this`signals
      ensures faults == old(faults) + if ok then 0 else 1
      ensures signals == old(signals) + [Health(process)]
    {
      ok := Command(Health(process));
    }

    /** Query an identity and, unless it exists, create it. */
    method EnsureIdentity(identity: string) returns (ok: bool, existed: bool)
      modifies this`identities, this`faults
      ensures identities == if ok && !existed then old(identities) + {identity} else old(identities)
      ensures old(faults) <= faults && (!ok <==> old(faults) < faults)
    {
      existed := true;
      ok := Attempt(); // query
      if !ok { return; }
      existed := *;
      if existed { return; }
      ok := Attempt(); // groupadd, useradd or usermod
      if ok {
        identities := identities + {identity};
      }
    }

    /** Timestamp, process id and counter. */
    method UniqueSerial() returns (n: nat)
      modifies this`serial
      ensures n == old(serial) && serial == n + 1
    {
      n := serial;
      serial := serial + 1;
    }

    method CreateDir(c: Component, name: Name, content: nat) returns (ok: bool)
      modifies this`dirs, this`history, this`faults
      ensures faults == old(faults) + if ok then 0 else 1
      ensures history == old(history) + [OnDisk()]
      ensures dirs == old(dirs).Set(c, dirs.Get(c))
      ensures dirs.Get(c).Keys <= old(dirs).Get(c).Keys + {name}
      ensures forall n :: n in old(dirs).Get(c) ==> n in dirs.Get(c) && dirs.Get(c)[n] == old(dirs).Get(c)[n]
      ensures ok ==> name in dirs.Get(c)
    {
      var made: bool := *;
      ok := *;
      ok := ok && made;
      if made && name !in dirs.Get(c) {
        var modified: nat := *;
        dirs := dirs.Set(c, dirs.Get(c)[name := Dir(modified, content)]);
      }
      history := history + [OnDisk()];
      faults := faults + if ok then 0 else 1;
    }

    /** `remove_owned` and `remove_dir_all` of one generation; every caller discards the result. */
    method RemoveDir(c: Component, name: Name)
      modifies this`dirs, this`history
      ensures history == old(history) + [OnDisk()]
      ensures dirs == old(dirs) || dirs == old(dirs).Set(c, old(dirs).Get(c) - {name})
    {
      var ok: bool := *;
      if ok {
        dirs := dirs.Set(c, dirs.Get(c) - {name});
      }
      history := history + [OnDisk()];
    }

    /** `rename` of a directory: the destination must be free. */
    method MoveDir(c: Component, from: Name, to: Name) returns (ok: bool)
      modifies this`dirs, this`history, this`faults
      ensures faults == old(faults) + if ok then 0 else 1
      ensures history == old(history) + [OnDisk()]
      ensures ok ==> from in old(dirs).Get(c) && to !in old(dirs).Get(c)
      ensures dirs == if ok
                      then old(dirs).Set(c, (old(dirs).Get(c) - {from})[to := old(dirs).Get(c)[from]])
                      else old(dirs)
    {
      ok := *;
      ok := ok && from in dirs.Get(c) && to !in dirs.Get(c);
      if ok {
        dirs := dirs.Set(c, (dirs.Get(c) - {from})[to := dirs.Get(c)[from]]);
      }
      history := history + [OnDisk()];
      faults := faults + if ok then 0 else 1;
    }

    /** A rename that puts back what was moved aside. */
    method MoveBack(c: Component, from: Name, to: Name) returns (ok: bool)
      modifies this`dirs, this`history, this`lapses, this`faults
      ensures old(faults) <= faults
      ensures history == old(history) + [OnDisk()]
      ensures ok ==> from in old(dirs).Get(c) && to !in old(dirs).Get(c)
      ensures dirs == if ok
                      then old(dirs).Set(c, (old(dirs).Get(c) - {from})[to := old(dirs).Get(c)[from]])
                      else old(dirs)
      ensures lapses == old(lapses) + if ok then 0 else 1
    {
      ok := MoveDir(c, from, to);
      lapses := lapses + if ok then 0 else 1;
    }

    /** `rename` of a staged core into the versions root. Tests made with the former content no longer count. */
    method PublishStaged(name: Name, content: nat) returns (ok: bool)
      modifies this`dirs, this`tested, this`history, this`faults
      ensures faults == old(faults) + if ok then 0 else 1
      ensures history == old(history) + [OnDisk()]
      ensures ok ==>
                && name !in old(dirs).core
                && name in dirs.core && dirs.core[name].content == content
                && dirs == old(dirs).(core := old(dirs).core[name := dirs.core[name]])
      ensures !ok ==> dirs == old(dirs)
      ensures forall t :: t in tested <==> t in old(tested) && !(ok && t.core == Some(name))
    {
      ok := *;
      ok := ok && name !in dirs.core;
      if ok {
        var modified: nat := *;
        dirs := dirs.(core := dirs.core[name := Dir(modified, content)]);
        tested := set t | t in tested && t.core != Some(name);
      }
      history := history + [OnDisk()];
      faults := faults + if ok then 0 else 1;
    }

    /** `version` of a staged executable. */
    method StagedVersion(content: nat) returns (ok: bool)
      modifies this`staged, this`faults
      ensures faults == old(faults) + if ok then 0 else 1
      ensures staged == if ok then old(staged) + {content} else old(staged)
    {
      ok := *;
      if ok {
        staged := staged + {content};
      }
      faults := faults + if ok then 0 else 1;
    }

    /** `version` of an executable in place. */
    method Version(name: Name, ghost minds: bool) returns (ok: bool)
      modifies this`answered, this`faults
      ensures faults == old(faults) + if minds && !ok then 1 else 0
      ensures ok ==> name in dirs.core && answered == old(answered) + {(name, dirs.core[name].content)}
      ensures !ok ==> answered == old(answered)
    {
      ok := *;
      ok := ok && name in dirs.core;
      if ok {
        answered := answered + {(name, dirs.core[name].content)};
      }
      faults := faults + if minds && !ok then 1 else 0;
    }

    method TestConfig(core: Option<Name>, assets: Option<Name>, config: Name) returns (ok: bool)
      modifies this`validated, this`tested, this`faults
      ensures faults == old(faults) + if ok then 0 else 1
      ensures ok ==> tested == old(tested) + {Triple(core, assets, config)} && validated == old(validated) + {config}
      ensures !ok ==> tested == old(tested) && validated == old(validated)
    {
      ok := *;
      if ok {
        tested := tested + {Triple(core, assets, config)};
        validated := validated + {config};
      }
      faults := faults + if ok then 0 else 1;
    }

    /** Whether `read_link` succeeds. A link that is there and cannot be read is a lapse. */
    method CanRead(link: Option<Name>) returns (ok: bool)
      modifies this`lapses
      ensures lapses == old(lapses) + if ok || link.None? then 0 else 1
    {
      ok := *;
      lapses := lapses + if ok || link.None? then 0 else 1;
    }

    /** Since `past` only one pair has changed, and only within `pairs`. */
    ghost predicate Passed(past: seq<Disk>, c: Component, pairs: set<Pair>)
      reads this
    {
      forall i :: |past| <= i < |history| ==>
        history[i] == OnDisk().(links := links.Set(c, history[i].links.Get(c))) && history[i].links.Get(c) in pairs
    }

    /** One pair goes to `pair`, by way of any of `pairs`. */
    method Pass(c: Component, ghost pairs: set<Pair>, pair: Pair)
      requires pair in pairs
      modifies this`links, this`history
      ensures links == old(links).Set(c, pair)
      ensures Continues(old(history)) && Passed(old(history), c, pairs)
    {
      links := links.Set(c, pair);
      ghost var between: seq<Pair> := *;
      for i := 0 to |between|
        invariant old(history) <= history && Passed(old(history), c, pairs)
      {
        if between[i] in pairs {
          history := history + [OnDisk().(links := links.Set(c, between[i]))];
        }
      }
      history := history + [OnDisk()];
    }

    /**
     A failed switch should have no effect, and a successful one should have saved `current`:
     a link that cannot be read is silently not saved.
     */
    method SwitchGeneration(c: Component, target: Name) returns (ok: bool)
      modifies this`links, this`lapses, this`history, this`faults
      ensures faults == old(faults) + if ok then 0 else 1
      ensures links == old(links).Set(c, links.Get(c))
      ensures links.Get(c) in SwitchReach(old(links).Get(c), target)
      ensures ok ==> links.Get(c) in {old(links).Get(c).Switch(target), Skipped(old(links).Get(c), target)}
      ensures lapses == old(lapses) +
                if links.Get(c) == if ok then old(links).Get(c).Switch(target) else old(links).Get(c) then 0 else 1
      ensures Continues(old(history)) && Passed(old(history), c, SwitchReach(old(links).Get(c), target))
    {
      ok := *;
      var readable: bool := *;
      var before := links.Get(c);
      var pair := if readable then before.Switch(target) else Skipped(before, target);
      if !ok {
        assert before in SwitchReach(before, target);
        pair :| pair in SwitchReach(before, target);
      }
      Pass(c, SwitchReach(before, target), pair);
      lapses := lapses + if pair == if ok then before.Switch(target) else before then 0 else 1;
      faults := faults + if ok then 0 else 1;
    }

    /** The first read is of `previous`, and without it nothing happens. */
    method RollbackGeneration(c: Component) returns (ok: bool)
      requires Recorded()
      modifies this`links, this`lapses, this`history, this`faults
      ensures old(faults) <= faults && (!ok <==> old(faults) < faults)
      ensures links == old(links).Set(c, links.Get(c))
      ensures old(links).Get(c).previous.None? ==>
                !ok && links == old(links) && lapses == old(lapses) && history == old(history)
      ensures old(links).Get(c).previous.Some? ==>
                var pair, target := old(links).Get(c), old(links).Get(c).previous.value;
                && links.Get(c) in SwitchReach(pair, target)
                && (ok ==> links.Get(c) in {pair.Switch(target), Skipped(pair, target)})
                && lapses == old(lapses) +
                     (if links.Get(c) == if ok then pair.Switch(target) else pair then 0 else 1)
                && Continues(old(history)) && Passed(old(history), c, SwitchReach(pair, target))
    {
      var previous := links.Get(c).previous;
      var readable: bool := *;
      if previous.None? || !readable {
        faults := faults + 1;
        return false;
      }
      ok := SwitchGeneration(c, previous.value);
    }

    /** The second swap of a failed rollback. Its error is discarded: what counts is whether it swapped. */
    method SwapBack(c: Component)
      requires Recorded()
      modifies this`links, this`lapses, this`history, this`faults
      ensures old(faults) <= faults
      ensures links == old(links).Set(c, links.Get(c))
      ensures links.Get(c) in SwapReach(old(links).Get(c))
      ensures lapses == old(lapses) + if links.Get(c) == old(links).Get(c).Swap() then 0 else 1
      ensures Continues(old(history)) && Passed(old(history), c, SwapReach(old(links).Get(c)))
    {
      ghost var pair, before := links.Get(c), lapses;
      var _ := RollbackGeneration(c);
      lapses := before + if links.Get(c) == pair.Swap() then 0 else 1;
    }

    /**
     Always a compensation: what counts is whether the pair is the wanted one, not what was
     reported, unless the caller gives up on an error.
     */
    method RestoreGeneration(c: Component, wanted: Pair, ghost minds: bool) returns (ok: bool)
      modifies this`links, this`lapses, this`refusals, this`history
      ensures links == old(links).Set(c, links.Get(c))
      ensures links.Get(c) in RestoreRemains(old(links).Get(c), wanted)
      ensures ok ==> links.Get(c) == wanted
      ensures lapses == old(lapses) + if links.Get(c) == wanted && (minds ==> ok) then 0 else 1
      ensures refusals == old(refusals) + if minds && !ok then 1 else 0
      ensures Continues(old(history)) && Passed(old(history), c, RestoreRemains(old(links).Get(c), wanted))
    {
      ok := *;
      var pair := wanted;
      if !ok {
        assert wanted in RestoreRemains(links.Get(c), wanted);
        pair :| pair in RestoreRemains(links.Get(c), wanted);
      }
      Pass(c, RestoreRemains(links.Get(c), wanted), pair);
      lapses := lapses + if pair == wanted && (minds ==> ok) then 0 else 1;
      refusals := refusals + if minds && !ok then 1 else 0;
    }

    /**
     `write_atomic` on state.json: the file is replaced whole, and the error of the directory
     sync comes after that.
     */
    method WriteState(s: ManagerState, ghost purpose: Purpose) returns (ok: bool)
      modifies this`state, this`lapses, this`refusals, this`history, this`faults
      ensures faults == old(faults) + if ok || purpose == Undo then 0 else 1
      ensures state == old(state) || state == Some(s)
      ensures ok ==> state == Some(s)
      ensures lapses == old(lapses) +
                match purpose
                case Record => 0
                case Commit => if ok || Loaded(state).generations == old(Loaded(state)).generations then 0 else 1
                case Undo => if Loaded(state) == s then 0 else 1
      ensures refusals == old(refusals) + if purpose == Undo && !ok then 1 else 0
      ensures history == old(history) + [OnDisk()]
    {
      ok := *;
      var effect: bool := *;
      ghost var before := Loaded(state).generations;
      if ok || effect {
        state := Some(s);
      }
      lapses := lapses +
        match purpose
        case Record => 0
        case Commit => if ok || Loaded(state).generations == before then 0 else 1
        case Undo => if Loaded(state) == s then 0 else 1;
      refusals := refusals + if purpose == Undo && !ok then 1 else 0;
      history := history + [OnDisk()];
      faults := faults + if ok || purpose == Undo then 0 else 1;
    }

    /** `existing_state`: a missing file is the default state, an unreadable one an error. */
    method ReadState() returns (r: Result<ManagerState, ()>)
      modifies this`faults
      ensures r.Success? ==> r.value == Loaded(state)
      ensures faults == old(faults) + if r.Success? then 0 else 1
    {
      var ok: bool := *;
      faults := faults + if ok then 0 else 1;
      r := if ok then Success(if state.Some? then state.value else DEFAULT_STATE) else Failure(());
    }

    /** The pointers name what the state names, in order, and it is there. */
    predicate Agrees()
      reads this
    {
      && links == (if state.Some? then state.value.generations else NO_LINKS)
      && links.core.Ordered() && links.assets.Ordered() && links.config.Ordered()
      && links.core.Targets() <= dirs.core.Keys && links.assets.Targets() <= dirs.assets.Keys
      && links.config.Targets() <= dirs.config.Keys
    }

    /** A pointer pair and its directories, of which a failing `remove_dir_all` may have removed any part. */
    method RemovePart(c: Component)
      modifies this`links, this`dirs
      ensures links == old(links).Set(c, links.Get(c)) && links.Get(c).Within(old(links).Get(c))
      ensures dirs == old(dirs).Set(c, dirs.Get(c)) && dirs.Get(c).Keys <= old(dirs).Get(c).Keys
    {
      var keepCurrent: bool, keepPrevious: bool := *, *;
      var pair := links.Get(c);
      links := links.Set(c,
        Pair(if keepCurrent then pair.current else None, if keepPrevious then pair.previous else None));
      var gone: set<Name> := *;
      dirs := dirs.Set(c, dirs.Get(c) - gone);
    }

    /** /var/lib/xray-manager: the state, the configuration pointers and the configuration generations. */
    method RemoveLibrary() returns (ok: bool)
      modifies this`links, this`dirs, this`state, this`lapses, this`history, this`faults
      ensures faults == old(faults) + if ok then 0 else 1
      ensures LibraryLessened(old(OnDisk()), OnDisk())
      ensures ok ==> OnDisk() == old(OnDisk()).WithoutLibrary()
      ensures lapses == old(lapses) + if OnDisk() in {old(OnDisk()), old(OnDisk()).WithoutLibrary()} then 0 else 1
      ensures Continues(old(history))
      ensures forall i :: |old(history)| <= i < |history| ==> LibraryLessened(old(OnDisk()), history[i])
    {
      var keeps: seq<bool> := *;
      for i := 0 to |keeps|
        invariant LibraryLessened(old(OnDisk()), OnDisk()) && old(history) <= history
        invariant lapses == old(lapses) && faults == old(faults)
        invariant forall k :: |old(history)| <= k < |history| ==> LibraryLessened(old(OnDisk()), history[k])
      {
        if !keeps[i] {
          state := None;
        }
        RemovePart(Config);
        history := history + [OnDisk()];
      }
      ok := *;
      if ok {
        state := None;
        links := links.(config := NO_PAIR);
        dirs := dirs.(config := map[]);
      }
      history := history + [OnDisk()];
      lapses := lapses + if OnDisk() in {old(OnDisk()), old(OnDisk()).WithoutLibrary()} then 0 else 1;
      faults := faults + if ok then 0 else 1;
    }

    /** /opt/xray-manager: cores and assets with their pointers. */
    method RemoveInstallation() returns (ok: bool)
      modifies this`links, this`dirs, this`lapses, this`history, this`faults
      ensures faults == old(faults) + if ok then 0 else 1
      ensures InstallationLessened(old(OnDisk()), OnDisk())
      ensures ok ==> OnDisk() == old(OnDisk()).WithoutInstallation()
      ensures lapses == old(lapses) +
                if OnDisk() in {old(OnDisk()), old(OnDisk()).WithoutInstallation()} then 0 else 1
      ensures Continues(old(history))
      ensures forall i :: |old(history)| <= i < |history| ==> InstallationLessened(old(OnDisk()), history[i])
    {
      var steps: seq<bool> := *;
      for i := 0 to |steps|
        invariant InstallationLessened(old(OnDisk()), OnDisk()) && old(history) <= history
        invariant lapses == old(lapses) && faults == old(faults)
        invariant forall k :: |old(history)| <= k < |history| ==> InstallationLessened(old(OnDisk()), history[k])
      {
        RemovePart(Core);
        RemovePart(Assets);
        history := history + [OnDisk()];
      }
      ok := *;
      if ok {
        links := Trio(NO_PAIR, NO_PAIR, links.config);
        dirs := Trio(map[], map[], dirs.config);
      }
      history := history + [OnDisk()];
      lapses := lapses + if OnDisk() in {old(OnDisk()), old(OnDisk()).WithoutInstallation()} then 0 else 1;
      faults := faults + if ok then 0 else 1;
    }

    /** Of `before` directories as many are left as `keep` allows, and never fewer than the pointers need. */
    ghost predicate Trimmed(c: Component, before: nat, keep: nat)
      reads this
    {
      Min(before, keep) <= |dirs.Get(c)| <= Max(keep, |links.Get(c).Targets()|)
    }

    /** Retention of one component; its error is discarded by every caller. A target it cannot read is not protected. */
    method Prune(c: Component, keep: nat)
      modifies this`dirs, this`lapses, this`shortfalls, this`history, this`signals
      ensures dirs == old(dirs).Set(c, dirs.Get(c))
      ensures forall n :: n in dirs.Get(c) ==> n in old(dirs).Get(c) && dirs.Get(c)[n] == old(dirs).Get(c)[n]
      ensures old(lapses) <= lapses
      ensures lapses == old(lapses) ==> links.Get(c).Targets() * old(dirs).Get(c).Keys <= dirs.Get(c).Keys
      ensures old(shortfalls) <= shortfalls
      ensures lapses == old(lapses) && shortfalls == old(shortfalls) &&
              links.Get(c).Targets() <= old(dirs).Get(c).Keys ==>
                Trimmed(c, |old(dirs).Get(c)|, keep)
      ensures history == old(history) + [OnDisk()]
      ensures signals == old(signals) + [Signal.Prune(c, keep)]
    {
      var seesCurrent := CanRead(links.Get(c).current);
      var seesPrevious := CanRead(links.Get(c).previous);
      var left, complete := Retention.PruneGenerations(dirs.Get(c), links.Get(c), seesCurrent, seesPrevious, keep);
      shortfalls := shortfalls + if complete then 0 else 1;
      dirs := dirs.Set(c, left);
      history := history + [OnDisk()];
      signals := signals + [Signal.Prune(c, keep)];
    }
  }
}

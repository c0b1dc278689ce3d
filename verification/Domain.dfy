/**
 The persistent vocabulary of the manager: generation names, `current`/`previous`
 pairs and `ManagerState`. A pair stands both for two symlinks and for the two
 `ManagerState` fields of the same component. The symlinks and the fields are
 moved by different code, so the two moves (`Switch` and `Shift`) are separate
 functions here, and that they agree is a theorem.
 */
module Domain {
  import opened Prelude

  /**
   Directory names under a generations root. Core versions carry a release tag; every
   other name is a timestamp, a process id and a counter. The manager and the installer
   each have such a counter; `serial` stands for both and is never reused.
   */
  datatype Name =
    | Release(tag: string)
    | Generation(serial: nat)
    | Quarantine(serial: nat)
    | Failed(serial: nat)

  datatype Component = Core | Assets | Config

  datatype Pair = Pair(current: Option<Name>, previous: Option<Name>) {

    /** Symlink side: `previous` is only touched when `current` existed. */
    function Switch(target: Name): Pair {
      Pair(Some(target), if current.Some? then current else previous)
    }

    /** State side: `previous = current.take(); current = Some(target)`. */
    function Shift(target: Name): Pair {
      Pair(Some(target), current)
    }

    /** Installer's `write_state`: shift only when the name is new. */
    function Advance(target: Name): Pair {
      if current == Some(target) then this else Shift(target)
    }

    function Swap(): Pair {
      Pair(previous, current)
    }

    function Targets(): set<Name> {
      (if current.Some? then {current.value} else {}) +
      (if previous.Some? then {previous.value} else {})
    }

    /** Each pointer is that of `whole` or gone. */
    predicate Within(whole: Pair) {
      (current.None? || current == whole.current) && (previous.None? || previous == whole.previous)
    }

    /** A `previous` never exists without a different `current`. */
    predicate Ordered() {
      previous.Some? ==> current.Some? && current != previous
    }
  }

  const NO_PAIR := Pair(None, None)

  /** What a failed native `switch_generation` can leave behind. */
  function SwitchRemains(pair: Pair, target: Name): set<Pair> {
    {pair, Pair(pair.current, if pair.current.Some? then pair.current else pair.previous), pair.Switch(target)}
  }

  /** A switch that could not read `current` does not save it. */
  function Skipped(pair: Pair, target: Name): Pair {
    pair.(current := Some(target))
  }

  /** Everything a native `switch_generation` can leave behind, and whatever a restore makes of that. */
  function SwitchReach(pair: Pair, target: Name): set<Pair> {
    SwitchRemains(pair, target) + {Skipped(pair, target)}
  }

  /** Everything a native `rollback_generation` can leave behind; without `previous` it does nothing. */
  function SwapReach(pair: Pair): set<Pair> {
    if pair.previous.Some? then SwitchReach(pair, pair.previous.value) else {pair}
  }

  /** Everything two rollbacks of a full pair can leave behind. */
  function RollbackReach(pair: Pair): set<Pair> {
    {pair, pair.Swap(), Pair(pair.current, pair.current), Pair(pair.previous, pair.previous)}
  }

  lemma SwapStaysInReach(pair: Pair, reached: Pair)
    requires pair.current.Some? && pair.previous.Some? && reached in RollbackReach(pair)
    ensures SwapReach(reached) <= RollbackReach(pair)
  {
    assert pair == Pair(pair.current, pair.previous);
  }

  /** What a failed native `restore_generation` can leave behind. */
  function RestoreRemains(pair: Pair, wanted: Pair): set<Pair> {
    {pair, Pair(wanted.current, pair.previous), wanted}
  }

  /** Restoring after a switch leads nowhere a switch cannot lead by itself. */
  lemma RestoreStaysInReach(pair: Pair, target: Name, reached: Pair)
    requires reached in SwitchReach(pair, target)
    ensures RestoreRemains(reached, pair) <= SwitchReach(pair, target)
  {
    assert pair == Pair(pair.current, pair.previous);
  }

  /** One value for each component. */
  datatype Trio<T> = Trio(core: T, assets: T, config: T) {
    function Get(c: Component): T {
      match c
      case Core => core
      case Assets => assets
      case Config => config
    }

    function Set(c: Component, value: T): Trio<T> {
      match c
      case Core => this.(core := value)
      case Assets => this.(assets := value)
      case Config => this.(config := value)
    }
  }

  const NO_LINKS := Trio(NO_PAIR, NO_PAIR, NO_PAIR)

  /** state.json; the six generation fields are grouped into pairs. */
  datatype ManagerState = ManagerState(
    generations: Trio<Pair>,
    selectedNode: Option<string>,
    lastHealthcheck: Option<nat>,
    lastRollbackReason: Option<string>,
    installedBackends: map<string, string>,
    createdIdentities: set<string>)

  const DEFAULT_STATE := ManagerState(NO_LINKS, None, None, None, map[], {})

  /** The three directories one `xray run -test` was given. */
  datatype Triple = Triple(core: Option<Name>, assets: Option<Name>, config: Name)

  /** A generation directory: its modification time and an identity for its content. */
  datatype Dir = Dir(modified: nat, content: nat)
}

/**
 What a whole operation may do to the host, stated on values: the pointers move,
 the generation fields of state.json move, and directories come and go around
 them. Operations are proved to be such steps in `Application` and `Installer`;
 here every run of steps is proved to keep the invariant.
 */
module Transactions {
  import opened Prelude
  import opened Domain

  /**
   The host as far as transactions see it. `validated` holds the config generations that ever
   passed `test_config`.
   */
  datatype Snapshot = Snapshot(
    links: Trio<Pair>,
    dirs: Trio<map<Name, Dir>>,
    state: Option<ManagerState>,
    serial: nat,
    validated: set<Name>)

  /** A missing state.json reads as the default state. */
  function Loaded(state: Option<ManagerState>): ManagerState {
    if state.Some? then state.value else DEFAULT_STATE
  }

  function Fields(s: Snapshot): Trio<Pair> {
    Loaded(s.state).generations
  }

  predicate Used(n: Name, serial: nat) {
    n.Release? || n.serial < serial
  }

  /** Pointers and state fields name the same directories, and those directories exist. */
  ghost predicate ComponentSound(link: Pair, fields: Pair, dirs: map<Name, Dir>, serial: nat) {
    && link == fields
    && link.Ordered()
    && link.Targets() <= dirs.Keys
    && forall n :: n in dirs ==> Used(n, serial)
  }

  ghost predicate Inv(s: Snapshot) {
    && ComponentSound(s.links.core, Fields(s).core, s.dirs.core, s.serial)
    && ComponentSound(s.links.assets, Fields(s).assets, s.dirs.assets, s.serial)
    && ComponentSound(s.links.config, Fields(s).config, s.dirs.config, s.serial)
    && s.links.config.Targets() <= s.validated
    && forall n :: n in s.validated ==> Used(n, s.serial)
  }

  datatype Move = Hold | To(target: Name) | Exchange | Clear {

    /** Only a different directory is switched to, and only a full pair is exchanged. */
    predicate Allowed(pair: Pair) {
      && (To? ==> pair.current != Some(target))
      && (Exchange? ==> pair.current.Some? && pair.previous.Some?)
    }

    function OnLinks(pair: Pair): Pair {
      match this
      case Hold => pair
      case To(target) => pair.Switch(target)
      case Exchange => pair.Swap()
      case Clear => NO_PAIR
    }

    function OnFields(pair: Pair): Pair {
      match this
      case Hold => pair
      case To(target) => pair.Shift(target)
      case Exchange => pair.Swap()
      case Clear => NO_PAIR
    }
  }

  /** The symlink move and the state-field move agree exactly on pairs whose `previous` is not alone. */
  lemma SwitchAgreesWithShift(pair: Pair, target: Name)
    ensures pair.Switch(target) == pair.Shift(target) <==> (pair.previous.Some? ==> pair.current.Some?)
  {
  }

  ghost predicate ComponentStep(link: Pair, fields: Pair, dirs: map<Name, Dir>, move: Move,
                                link': Pair, fields': Pair, dirs': map<Name, Dir>, serial': nat) {
    && move.Allowed(link)
    && link' == move.OnLinks(link)
    && fields' == move.OnFields(fields)
    && link'.Targets() <= dirs'.Keys
    && forall n :: n in dirs' && n !in dirs ==> Used(n, serial')
  }

  ghost predicate Step(s: Snapshot, moves: Trio<Move>, s': Snapshot) {
    && ComponentStep(s.links.core, Fields(s).core, s.dirs.core, moves.core,
                     s'.links.core, Fields(s').core, s'.dirs.core, s'.serial)
    && ComponentStep(s.links.assets, Fields(s).assets, s.dirs.assets, moves.assets,
                     s'.links.assets, Fields(s').assets, s'.dirs.assets, s'.serial)
    && ComponentStep(s.links.config, Fields(s).config, s.dirs.config, moves.config,
                     s'.links.config, Fields(s').config, s'.dirs.config, s'.serial)
    && s.serial <= s'.serial
    && s.validated <= s'.validated
    && (moves.config.To? ==> moves.config.target in s'.validated)
    && forall n :: n in s'.validated && n !in s.validated ==> Used(n, s'.serial)
  }

  const HOLD := Trio(Hold, Hold, Hold)

  /** Nothing the pointers can reach has changed. */
  ghost predicate Idle(s: Snapshot, s': Snapshot) {
    Step(s, HOLD, s')
  }

  /**
   Why a failed switch with an effect is a lapse: of everything a
   failed native switch can leave behind, only the unchanged pair keeps the invariant.
   (The state file is not written when the switch reports failure.)
   */
  lemma FailedSwitchMustBeClean(s: Snapshot, c: Component, target: Name, remains: Pair)
    requires Inv(s) && s.links.Get(c).current != Some(target)
    requires remains in SwitchRemains(s.links.Get(c), target)
    ensures Inv(s.(links := s.links.Set(c, remains))) <==> remains == s.links.Get(c)
  {
    assert s.links.Set(c, s.links.Get(c)) == s.links;
    assert Fields(s.(links := s.links.Set(c, remains))) == Fields(s);
  }

  /**
   The same for a switch that succeeded without having read `current`, once the state has
   followed: link and field agree if and only if there was nothing to save, or it was saved already.
   */
  lemma SkippedSwitchAgreesIff(s: Snapshot, c: Component, target: Name)
    requires Inv(s) && s.links.Get(c).current != Some(target)
    ensures Skipped(s.links.Get(c), target) == Fields(s).Get(c).Shift(target) <==> s.links.Get(c).current.None?
  {
    assert s.links.Get(c) == Fields(s).Get(c) && s.links.Get(c).Ordered();
  }

  /**
   And for an unchanged component that is switched because its link could not be read. Its field
   does not follow, so they agree if and only if the switch could not read the link either.
   */
  lemma SpuriousSwitchAgreesIff(s: Snapshot, c: Component, target: Name, switched: Pair)
    requires Inv(s) && s.links.Get(c).current == Some(target)
    requires switched in {s.links.Get(c).Switch(target), Skipped(s.links.Get(c), target)}
    ensures switched == Fields(s).Get(c).Advance(target) <==> switched == Skipped(s.links.Get(c), target)
  {
    assert s.links.Get(c) == Fields(s).Get(c) && s.links.Get(c).Ordered();
  }

  /**
   What a state write that took effect although it reported failure does once the
   pointers are back: the invariant holds if and only if it wrote the fields that were there.
   */
  lemma StrandedWrite(s: Snapshot, written: ManagerState)
    requires Inv(s)
    ensures Inv(s.(state := Some(written))) <==> written.generations == Fields(s)
  {
    assert Fields(s.(state := Some(written))) == written.generations;
  }

  /**
   A failed switch that took effect leaves `current` on its candidate, which the
   caller then deletes: every target still exists if and only if `current` did not move.
   */
  lemma DeletedCandidateDangles(s: Snapshot, candidate: Name, remains: Pair)
    requires Inv(s) && candidate !in s.dirs.config
    requires remains in SwitchRemains(s.links.config, candidate)
    ensures remains.Targets() <= s.dirs.config.Keys <==> remains.current == s.links.config.current
    ensures remains.current != s.links.config.current ==> remains.current == Some(candidate)
  {
    assert s.links.config.Targets() <= s.dirs.config.Keys;
    if remains.current == Some(candidate) {
      assert candidate in remains.Targets();
    }
  }

  /** Housekeeping before or after a step does not change what the step is. */
  lemma IdleAround(s0: Snapshot, s1: Snapshot, moves: Trio<Move>, s2: Snapshot, s3: Snapshot)
    requires Idle(s0, s1) && Step(s1, moves, s2) && Idle(s2, s3)
    ensures Step(s0, moves, s3)
  {
    UsedLater(s1, s2);
    UsedLater(s2, s3);
    assert s0.links == s1.links && s2.links == s3.links;
  }

  lemma UsedLater(s: Snapshot, s': Snapshot)
    requires s.serial <= s'.serial
    ensures forall n :: Used(n, s.serial) ==> Used(n, s'.serial)
  {
  }

  lemma ComponentStepKeepsSound(link: Pair, fields: Pair, dirs: map<Name, Dir>, serial: nat, move: Move,
                                link': Pair, fields': Pair, dirs': map<Name, Dir>, serial': nat)
    requires ComponentSound(link, fields, dirs, serial) && serial <= serial'
    requires ComponentStep(link, fields, dirs, move, link', fields', dirs', serial')
    ensures ComponentSound(link', fields', dirs', serial')
  {
  }

  /** One step keeps agreement, order, existence and validation together. */
  lemma StepKeepsInv(s: Snapshot, moves: Trio<Move>, s': Snapshot)
    requires Inv(s) && Step(s, moves, s')
    ensures Inv(s')
  {
    ComponentStepKeepsSound(s.links.core, Fields(s).core, s.dirs.core, s.serial, moves.core,
                            s'.links.core, Fields(s').core, s'.dirs.core, s'.serial);
    ComponentStepKeepsSound(s.links.assets, Fields(s).assets, s.dirs.assets, s.serial, moves.assets,
                            s'.links.assets, Fields(s').assets, s'.dirs.assets, s'.serial);
    ComponentStepKeepsSound(s.links.config, Fields(s).config, s.dirs.config, s.serial, moves.config,
                            s'.links.config, Fields(s').config, s'.dirs.config, s'.serial);
  }

  /** Directories, names and validations around a step, with the links of `s'`. */
  ghost predicate Housekeeping(s: Snapshot, s': Snapshot) {
    && s.serial <= s'.serial
    && s'.links.core.Targets() <= s'.dirs.core.Keys
    && s'.links.assets.Targets() <= s'.dirs.assets.Keys
    && s'.links.config.Targets() <= s'.dirs.config.Keys
    && (forall n :: n in s'.dirs.core && n !in s.dirs.core ==> Used(n, s'.serial))
    && (forall n :: n in s'.dirs.assets && n !in s.dirs.assets ==> Used(n, s'.serial))
    && (forall n :: n in s'.dirs.config && n !in s.dirs.config ==> Used(n, s'.serial))
    && s.validated <= s'.validated
    && (forall n :: n in s'.validated && n !in s.validated ==> Used(n, s'.serial))
  }

  lemma HousekeepingTwice(s0: Snapshot, s1: Snapshot, s2: Snapshot)
    requires Housekeeping(s0, s1) && Housekeeping(s1, s2)
    ensures Housekeeping(s0, s2)
  {
    UsedLater(s1, s2);
  }

  lemma HousekeepingIsIdle(s: Snapshot, s': Snapshot)
    requires Inv(s) && Housekeeping(s, s')
    requires s'.links == s.links && Fields(s') == Fields(s)
    ensures Idle(s, s') && Inv(s')
  {
    StepKeepsInv(s, HOLD, s');
  }

  /** Something may be gone and nothing else has changed. */
  ghost predicate Shrunk(s: Snapshot, s': Snapshot) {
    && s'.links.core.Within(s.links.core) && s'.links.assets.Within(s.links.assets)
    && s'.links.config.Within(s.links.config)
    && s'.dirs.core.Keys <= s.dirs.core.Keys && s'.dirs.assets.Keys <= s.dirs.assets.Keys
    && s'.dirs.config.Keys <= s.dirs.config.Keys
    && (s'.state == s.state || s'.state == None)
    && s'.serial == s.serial && s'.validated == s.validated
  }

  /** A partial removal keeps the invariant only where it took all pointers with the state, or none of them. */
  lemma RemovalIsLegal(s: Snapshot, s': Snapshot)
    requires Inv(s) && Shrunk(s, s') && Inv(s')
    ensures s'.links == s.links || (s'.links == NO_LINKS && s'.state == None)
    ensures Step(s, if s'.links == s.links then HOLD else Trio(Clear, Clear, Clear), s')
  {
    assert s'.links == Fields(s');
  }

  /** What a crash leaves: everything that is on disk and nothing else. */
  datatype Disk = Disk(links: Trio<Pair>, dirs: Trio<map<Name, Dir>>, state: Option<ManagerState>) {

    /** /var/lib/xray-manager is gone. */
    function WithoutLibrary(): Disk {
      Disk(links.(config := NO_PAIR), dirs.(config := map[]), None)
    }

    /** /opt/xray-manager is gone. */
    function WithoutInstallation(): Disk {
      Disk(Trio(NO_PAIR, NO_PAIR, links.config), Trio(map[], map[], dirs.config), state)
    }
  }

  /** Something of /var/lib/xray-manager may be gone. */
  ghost predicate LibraryLessened(d: Disk, d': Disk) {
    && d'.links == d.links.(config := d'.links.config) && d'.links.config.Within(d.links.config)
    && d'.dirs == d.dirs.(config := d'.dirs.config) && d'.dirs.config.Keys <= d.dirs.config.Keys
    && (d'.state == d.state || d'.state == None)
  }

  /** Something of /opt/xray-manager may be gone. */
  ghost predicate InstallationLessened(d: Disk, d': Disk) {
    && d'.links.config == d.links.config && d'.dirs.config == d.dirs.config && d'.state == d.state
    && d'.links.core.Within(d.links.core) && d'.dirs.core.Keys <= d.dirs.core.Keys
    && d'.links.assets.Within(d.links.assets) && d'.dirs.assets.Keys <= d.dirs.assets.Keys
  }

  /** Every pointer of every component names a directory. */
  predicate Standing(d: Disk) {
    && d.links.core.Targets() <= d.dirs.core.Keys && d.links.assets.Targets() <= d.dirs.assets.Keys
    && d.links.config.Targets() <= d.dirs.config.Keys
  }

  /** Pointers and state name the same. */
  predicate Agreeing(d: Disk) {
    d.links == Loaded(d.state).generations
  }

  /** The forward move that leads from one pair to another. */
  function Forward(link: Pair, link': Pair): Move {
    if link'.current.None? || link'.current == link.current then Hold else To(link'.current.value)
  }

  function ForwardAll(links: Trio<Pair>, links': Trio<Pair>): Trio<Move> {
    Trio(Forward(links.core, links'.core), Forward(links.assets, links'.assets), Forward(links.config, links'.config))
  }

  /** Pairs that advanced alike on both sides make a step. */
  lemma AdvanceIsStep(s: Snapshot, targets: Trio<Name>, s': Snapshot)
    requires Inv(s) && Housekeeping(s, s')
    requires s'.links == Fields(s') == Trio(s.links.core.Advance(targets.core), s.links.assets.Advance(targets.assets),
                                            s.links.config.Advance(targets.config))
    requires targets.config in s'.validated
    ensures Step(s, ForwardAll(s.links, s'.links), s') && Inv(s')
  {
    StepKeepsInv(s, ForwardAll(s.links, s'.links), s');
  }

  const EMPTY_HOST := Snapshot(NO_LINKS, Trio(map[], map[], map[]), None, 0, {})

  /** A run visits `trace[0]`, `trace[1]`, ..., moving the pointers by `moves[0]`, `moves[1]`, .... */
  ghost predicate Run(trace: seq<Snapshot>, moves: seq<Trio<Move>>) {
    && |trace| == |moves| + 1
    && forall i :: 0 <= i < |moves| ==> Step(trace[i], moves[i], trace[i + 1])
  }

  /** Every snapshot of every run from an empty host satisfies the invariant. */
  lemma {:induction false} RunsKeepInv(trace: seq<Snapshot>, moves: seq<Trio<Move>>, i: nat)
    requires Run(trace, moves) && trace[0] == EMPTY_HOST && i < |trace|
    ensures Inv(trace[i])
  {
    if i > 0 {
      RunsKeepInv(trace, moves, i - 1);
      StepKeepsInv(trace[i - 1], moves[i - 1], trace[i]);
    }
  }

  /** In every reachable state a set `previous` can be rolled back to: it exists, differs, and had been validated. */
  lemma RollbackTargetIsReal(trace: seq<Snapshot>, moves: seq<Trio<Move>>, i: nat, c: Component)
    requires Run(trace, moves) && trace[0] == EMPTY_HOST && i < |trace|
    requires trace[i].links.Get(c).previous.Some?
    ensures Exchange.Allowed(trace[i].links.Get(c))
    ensures trace[i].links.Get(c).previous.value in trace[i].dirs.Get(c)
    ensures trace[i].links.Get(c).previous != trace[i].links.Get(c).current
    ensures c == Config ==> trace[i].links.config.previous.value in trace[i].validated
  {
    RunsKeepInv(trace, moves, i);
  }

  function ExchangeOnly(c: Component): Trio<Move> {
    HOLD.Set(c, Exchange)
  }

  /** Two rollbacks of one component, with anything idle in between, put every pointer and field back. */
  lemma RollbackIsAnInvolution(s: Snapshot, c: Component, s1: Snapshot, s2: Snapshot, s3: Snapshot)
    requires Inv(s)
    requires Step(s, ExchangeOnly(c), s1) && Idle(s1, s2) && Step(s2, ExchangeOnly(c), s3)
    ensures s3.links == s.links && Fields(s3) == Fields(s) && Inv(s3)
  {
    StepKeepsInv(s, ExchangeOnly(c), s1);
    StepKeepsInv(s1, HOLD, s2);
    StepKeepsInv(s2, ExchangeOnly(c), s3);
  }
}

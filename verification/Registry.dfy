/** BackendRegistry::resolve: from factories and preferences to selections and capability statuses. */
module Registry {
  import opened Prelude
  import opened Sorting

  datatype Capability =
    | Layout | Install | Identity | Service | Firewall | PolicyRouting | Tun
    | AppRunner | MountIsolation | DesktopProxy | PackageAdvice

  /** Declaration order, which is the order of `BTreeSet<Capability>`. */
  const ALL_CAPABILITIES := [Layout, Install, Identity, Service, Firewall, PolicyRouting, Tun,
                             AppRunner, MountIsolation, DesktopProxy, PackageAdvice]

  const CONTRACT := 1

  datatype Descriptor = Descriptor(id: string, contractVersion: nat, capabilities: set<Capability>)

  datatype Probe = Probe(available: bool, reason: Option<string>)

  /** A factory with what its probe will answer. */
  datatype Factory = Factory(descriptor: Descriptor, probe: Result<Probe, string>)

  datatype Backend = Backend(descriptor: Descriptor, probe: Probe)

  datatype Source = Cli | ConfigFile | InstalledState | Automatic

  datatype Preferences = Preferences(cli: map<Capability, string>, config: map<Capability, string>,
    installed: map<Capability, string>)

  datatype Selection = Selection(capability: Capability, backendId: string, source: Source)

  datatype Status = Status(capability: Capability, supported: bool, backendId: Option<string>, reason: Option<string>)

  datatype Resolution = Resolution(selections: seq<Selection>, statuses: seq<Status>)

  datatype ResolveError =
    | ProbeFailed(message: string)
    | DuplicateId(id: string)
    | NotCompiled(capability: Capability, id: string)
    | NotProvided(capability: Capability, id: string)
    | Unavailable(capability: Capability, id: string)

  /** An incompatible contract makes any probe unavailable. */
  function Checked(d: Descriptor, p: Probe): Probe {
    if d.contractVersion == CONTRACT then p
    else Probe(false, Some("backend contract is incompatible with required contract 1"))
  }

  function Collect(factories: seq<Factory>): Result<map<string, Backend>, ResolveError> {
    if factories == [] then Success(map[])
    else
      var front := Collect(factories[..|factories| - 1]);
      var last := factories[|factories| - 1];
      if front.Failure? then front
      else if last.probe.Failure? then Failure(ProbeFailed(last.probe.at))
      else if last.descriptor.id in front.value then Failure(DuplicateId(last.descriptor.id))
      else Success(front.value[last.descriptor.id := BackendOf(last)])
  }

  function BackendOf(f: Factory): Backend
    requires f.probe.Success?
  {
    Backend(f.descriptor, Checked(f.descriptor, f.probe.value))
  }

  /** Command line, configuration, installed state; "auto" is no preference. */
  function Explicit(preferences: Preferences, c: Capability): Option<(Source, string)> {
    if c in preferences.cli && preferences.cli[c] != "auto" then Some((Cli, preferences.cli[c]))
    else if c in preferences.config && preferences.config[c] != "auto" then Some((ConfigFile, preferences.config[c]))
    else if c in preferences.installed && preferences.installed[c] != "auto" then
      Some((InstalledState, preferences.installed[c]))
    else None
  }

  function Detected(available: map<string, Backend>, c: Capability): set<string> {
    set id | id in available && available[id].probe.available && c in available[id].descriptor.capabilities
  }

  function Compiled(available: map<string, Backend>, c: Capability): set<string> {
    set id | id in available && available[id].descriptor.contractVersion == CONTRACT
      && c in available[id].descriptor.capabilities
  }

  ghost predicate IsMin(s: set<string>, m: string) {
    m in s && forall x :: x in s ==> AtMost(m, x)
  }

  lemma {:induction false} MinExists(s: set<string>)
    requires s != {}
    ensures exists m :: IsMin(s, m)
  {
    StringsAreOrdered();
    var m :| m in s;
    if s == {m} {
      assert IsMin(s, m);
    } else {
      MinExists(s - {m});
      var n :| IsMin(s - {m}, n);
      assert IsMin(s, if AtMost(m, n) then m else n);
    }
  }

  /** `min_by` on the identifiers. */
  ghost function MinId(s: set<string>): (m: string)
    requires s != {}
    ensures IsMin(s, m)
  {
    MinExists(s);
    var m :| IsMin(s, m);
    m
  }

  lemma MinIdIsUnique(s: set<string>, m: string)
    requires IsMin(s, m)
    ensures m == MinId(s)
  {
    StringsAreOrdered();
  }

  ghost function Choose(available: map<string, Backend>, preferences: Preferences,
                        c: Capability): Result<Option<(Source, string)>, ResolveError> {
    var explicit := Explicit(preferences, c);
    if explicit.Some? then
      var (source, id) := explicit.value;
      if id !in available then Failure(NotCompiled(c, id))
      else if c !in available[id].descriptor.capabilities then Failure(NotProvided(c, id))
      else if !available[id].probe.available && source != InstalledState then Failure(Unavailable(c, id))
      else Success(explicit)
    else if Detected(available, c) != {} then Success(Some((Automatic, MinId(Detected(available, c)))))
    else if Compiled(available, c) != {} then Success(Some((Automatic, MinId(Compiled(available, c)))))
    else Success(None)
  }

  function StatusOf(available: map<string, Backend>, c: Capability, choice: Option<(Source, string)>): Status {
    if choice.Some? && choice.value.1 in available then
      Status(c, available[choice.value.1].probe.available, Some(choice.value.1), available[choice.value.1].probe.reason)
    else
      Status(c, false, None, Some("no available backend"))
  }

  function SelectionsOf(c: Capability, choice: Option<(Source, string)>): seq<Selection> {
    if choice.Some? then [Selection(c, choice.value.1, choice.value.0)] else []
  }

  /** The second loop, as a function of what the first one collected. */
  ghost function ResolveAll(available: map<string, Backend>, preferences: Preferences,
                            required: seq<Capability>): Result<Resolution, ResolveError> {
    if required == [] then Success(Resolution([], []))
    else
      var c := required[|required| - 1];
      var front := ResolveAll(available, preferences, required[..|required| - 1]);
      if front.Failure? then front
      else
        var choice := Choose(available, preferences, c);
        if choice.Failure? then Failure(choice.at)
        else Success(Resolution(front.value.selections + SelectionsOf(c, choice.value),
                                front.value.statuses + [StatusOf(available, c, choice.value)]))
  }

  function InOrder(required: set<Capability>): seq<Capability> {
    Select(ALL_CAPABILITIES, (c: Capability) => c in required)
  }

  ghost function ResolveSpec(factories: seq<Factory>, preferences: Preferences,
                             order: seq<Capability>): Result<Resolution, ResolveError> {
    var collected := Collect(factories);
    if collected.Failure? then Failure(collected.at) else ResolveAll(collected.value, preferences, order)
  }

  class BackendRegistry {
    var factories: seq<Factory>

    constructor ()
      ensures factories == []
    {
      factories := [];
    }

    method Register(f: Factory)
      modifies this
      ensures factories == old(factories) + [f]
    {
      factories := factories + [f];
    }

    method Resolve(preferences: Preferences, required: set<Capability>) returns (r: Result<Resolution, ResolveError>)
      ensures r == ResolveSpec(factories, preferences, InOrder(required))
    {
      var available := ProbeFactories();
      if available.Failure? {
        return Failure(available.at);
      }
      r := ResolveEach(available.value, preferences, InOrder(required));
    }

    method ProbeFactories() returns (r: Result<map<string, Backend>, ResolveError>)
      ensures r == Collect(factories)
    {
      var available: map<string, Backend> := map[];
      for i := 0 to |factories|
        invariant Collect(factories[..i]) == Success(available)
      {
        assert factories[..i + 1][..i] == factories[..i];
        var f := factories[i];
        if f.probe.Failure? {
          CollectStopsAt(factories, i + 1);
          return Failure(ProbeFailed(f.probe.at));
        }
        if f.descriptor.id in available {
          CollectStopsAt(factories, i + 1);
          return Failure(DuplicateId(f.descriptor.id));
        }
        available := available[f.descriptor.id := BackendOf(f)];
      }
      assert factories[..|factories|] == factories;
      return Success(available);
    }

    method ResolveEach(available: map<string, Backend>, preferences: Preferences, order: seq<Capability>)
      returns (r: Result<Resolution, ResolveError>)
      ensures r == ResolveAll(available, preferences, order)
    {
      var selections, statuses := [], [];
      for i := 0 to |order|
        invariant ResolveAll(available, preferences, order[..i]) == Success(Resolution(selections, statuses))
      {
        assert order[..i + 1][..i] == order[..i];
        var choice := Pick(available, preferences, order[i]);
        if choice.Failure? {
          ResolveStopsAt(available, preferences, order, i + 1);
          return Failure(choice.at);
        }
        selections := selections + SelectionsOf(order[i], choice.value);
        statuses := statuses + [StatusOf(available, order[i], choice.value)];
      }
      assert order[..|order|] == order;
      return Success(Resolution(selections, statuses));
    }

    /** One capability: an explicit choice, else the least detected id, else the least compiled one. */
    method Pick(available: map<string, Backend>, preferences: Preferences, c: Capability)
      returns (r: Result<Option<(Source, string)>, ResolveError>)
      ensures r == Choose(available, preferences, c)
    {
      var explicit := Explicit(preferences, c);
      if explicit.Some? {
        var (source, id) := explicit.value;
        if id !in available { return Failure(NotCompiled(c, id)); }
        if c !in available[id].descriptor.capabilities { return Failure(NotProvided(c, id)); }
        if !available[id].probe.available && source != InstalledState { return Failure(Unavailable(c, id)); }
        return Success(explicit);
      }
      var least := Least(Detected(available, c));
      if least.None? {
        least := Least(Compiled(available, c));
      }
      return Success(if least.Some? then Some((Automatic, least.value)) else None);
    }

    method Least(ids: set<string>) returns (r: Option<string>)
      ensures r == if ids == {} then None else Some(MinId(ids))
    {
      r := None;
      var left := ids;
      while left != {}
        invariant left <= ids
        invariant r.None? <==> left == ids
        invariant r.Some? ==> IsMin(ids - left, r.value)
        decreases left
      {
        var id :| id in left;
        left := left - {id};
        StringsAreOrdered();
        if r.None? || !AtMost(r.value, id) {
          r := Some(id);
        }
      }
      if r.Some? {
        assert ids - left == ids;
        MinIdIsUnique(ids, r.value);
      }
    }
  }

  lemma {:induction false} CollectStopsAt(factories: seq<Factory>, n: nat)
    requires n <= |factories| && Collect(factories[..n]).Failure?
    ensures Collect(factories) == Collect(factories[..n])
    decreases |factories| - n
  {
    if n == |factories| {
      assert factories[..n] == factories;
    } else {
      assert factories[..n + 1][..n] == factories[..n];
      CollectStopsAt(factories, n + 1);
    }
  }

  lemma {:induction false} ResolveStopsAt(available: map<string, Backend>, preferences: Preferences,
                                          required: seq<Capability>, n: nat)
    requires n <= |required| && ResolveAll(available, preferences, required[..n]).Failure?
    ensures ResolveAll(available, preferences, required) == ResolveAll(available, preferences, required[..n])
    decreases |required| - n
  {
    if n == |required| {
      assert required[..n] == required;
    } else {
      assert required[..n + 1][..n] == required[..n];
      ResolveStopsAt(available, preferences, required, n + 1);
    }
  }

  ghost predicate Registrable(factories: seq<Factory>) {
    && (forall f :: f in factories ==> f.probe.Success?)
    && (forall i, j :: 0 <= i < j < |factories| ==> factories[i].descriptor.id != factories[j].descriptor.id)
  }

  lemma RegistrableOfSnoc(front: seq<Factory>, last: Factory)
    ensures Registrable(front + [last]) <==>
              && Registrable(front) && last.probe.Success?
              && forall f :: f in front ==> f.descriptor.id != last.descriptor.id
  {
    var all := front + [last];
    assert forall i :: 0 <= i < |front| ==> all[i] == front[i] && all[i] in front;
    assert all[|front|] == last && last in all;
    if Registrable(all) {
      forall f | f in front
        ensures f in all && f.descriptor.id != last.descriptor.id
      {
        var i :| 0 <= i < |front| && front[i] == f;
        assert all[i].descriptor.id != all[|front|].descriptor.id;
      }
    }
  }

  /** Collecting succeeds exactly for answering factories with distinct ids, and files each under its id. */
  lemma {:induction false} CollectIff(factories: seq<Factory>)
    ensures Collect(factories).Success? <==> Registrable(factories)
    ensures Collect(factories).Success? ==>
              && (forall f :: f in factories ==> f.probe.Success? && f.descriptor.id in Collect(factories).value &&
                                                 Collect(factories).value[f.descriptor.id] == BackendOf(f))
              && (forall id :: id in Collect(factories).value ==> exists f :: f in factories && f.descriptor.id == id)
  {
    if factories != [] {
      var front, last := factories[..|factories| - 1], factories[|factories| - 1];
      CollectIff(front);
      RegistrableOfSnoc(front, last);
      assert factories == front + [last];
    }
  }

  lemma RegistrableUnderPermutation(fs: seq<Factory>, gs: seq<Factory>)
    requires multiset(fs) == multiset(gs) && Registrable(fs)
    ensures Registrable(gs)
  {
    SameMembers(fs, gs);
    forall i, j | 0 <= i < j < |gs|
      ensures gs[i].descriptor.id != gs[j].descriptor.id
    {
      PermutationStaysDistinct(fs, gs, i, j);
      assert gs[i] in fs && gs[j] in fs;
    }
  }

  /**
   Resolution does not depend on registration order. Whether collecting fails is
   order-independent too; only which of several collecting errors comes first is not.
   */
  lemma OrderIndependence(fs: seq<Factory>, gs: seq<Factory>, preferences: Preferences, order: seq<Capability>)
    requires multiset(fs) == multiset(gs)
    ensures Collect(fs).Success? <==> Collect(gs).Success?
    ensures Collect(fs).Success? ==> ResolveSpec(fs, preferences, order) == ResolveSpec(gs, preferences, order)
    ensures ResolveSpec(fs, preferences, order).Success? <==> ResolveSpec(gs, preferences, order).Success?
  {
    CollectIff(fs);
    CollectIff(gs);
    if Registrable(fs) {
      RegistrableUnderPermutation(fs, gs);
    }
    if Registrable(gs) {
      RegistrableUnderPermutation(gs, fs);
    }
    if Collect(fs).Success? {
      SameMembers(fs, gs);
      assert Collect(fs).value == Collect(gs).value;
    }
  }

  /**
   Who decides about a capability: the command line, else the configuration file, else the
   installed state, each unless it is silent or says "auto"; and nobody if all three are.
   */
  ghost predicate Decides(preferences: Preferences, c: Capability, source: Source, id: string) {
    var cli := c in preferences.cli && preferences.cli[c] != "auto";
    var config := c in preferences.config && preferences.config[c] != "auto";
    var installed := c in preferences.installed && preferences.installed[c] != "auto";
    match source
    case Cli => cli && id == preferences.cli[c]
    case ConfigFile => !cli && config && id == preferences.config[c]
    case InstalledState => !cli && !config && installed && id == preferences.installed[c]
    case Automatic => !cli && !config && !installed
  }

  lemma ExplicitDecides(preferences: Preferences, c: Capability)
    ensures var explicit := Explicit(preferences, c);
            forall source, id :: Decides(preferences, c, source, id) <==>
              if explicit.Some? then explicit.value == (source, id) else source == Automatic
  {
  }

  /** The least identifier among the available providers, or, if none is available, among those of contract 1. */
  ghost predicate LeastThatWill(available: map<string, Backend>, c: Capability, id: string) {
    && id in available && c in available[id].descriptor.capabilities
    && if available[id].probe.available then
         forall x :: x in available && available[x].probe.available && c in available[x].descriptor.capabilities ==>
           AtMost(id, x)
       else
         && (forall x :: x in available && c in available[x].descriptor.capabilities ==> !available[x].probe.available)
         && available[id].descriptor.contractVersion == 1
         && forall x :: x in available ==>
              available[x].descriptor.contractVersion == 1 && c in available[x].descriptor.capabilities ==>
                AtMost(id, x)
  }

  /** What a successful resolution says about one required capability. */
  ghost predicate StatusSound(available: map<string, Backend>, preferences: Preferences, status: Status) {
    && (status.supported ==>
          && status.backendId.Some? && status.backendId.value in available
          && available[status.backendId.value].probe.available
          && status.capability in available[status.backendId.value].descriptor.capabilities)
    && (forall source, id :: Decides(preferences, status.capability, source, id) && source != Automatic ==>
          status.backendId == Some(id) && (source != InstalledState ==> status.supported))
    && (Decides(preferences, status.capability, Automatic, "") && status.backendId.Some? ==>
          LeastThatWill(available, status.capability, status.backendId.value))
    && (status.backendId.None? <==>
          && Decides(preferences, status.capability, Automatic, "")
          && forall x :: x in available && status.capability in available[x].descriptor.capabilities ==>
               !available[x].probe.available && available[x].descriptor.contractVersion != 1)
    && (status.backendId.None? ==> status.reason == Some("no available backend"))
    && (status.backendId.Some? ==>
          && status.backendId.value in available
          && status.capability in available[status.backendId.value].descriptor.capabilities
          && status.reason == available[status.backendId.value].probe.reason
          && status.supported == available[status.backendId.value].probe.available)
  }

  lemma ChoiceIsSound(available: map<string, Backend>, preferences: Preferences, c: Capability)
    requires Choose(available, preferences, c).Success?
    ensures StatusSound(available, preferences, StatusOf(available, c, Choose(available, preferences, c).value))
  {
    ExplicitDecides(preferences, c);
    LeastWillDo(available, c);
  }

  lemma LeastWillDo(available: map<string, Backend>, c: Capability)
    ensures Detected(available, c) != {} ==> LeastThatWill(available, c, MinId(Detected(available, c)))
    ensures Detected(available, c) == {} && Compiled(available, c) != {} ==>
              LeastThatWill(available, c, MinId(Compiled(available, c)))
    ensures Detected(available, c) == Compiled(available, c) == {} <==>
            forall x :: x in available && c in available[x].descriptor.capabilities ==>
              !available[x].probe.available && available[x].descriptor.contractVersion != 1
  {
    forall x | x in available && c in available[x].descriptor.capabilities
      ensures available[x].probe.available <==> x in Detected(available, c)
      ensures available[x].descriptor.contractVersion == 1 <==> x in Compiled(available, c)
    {
    }
  }

  lemma {:induction false} StatusesAreSound(available: map<string, Backend>, preferences: Preferences,
                                            required: seq<Capability>)
    requires ResolveAll(available, preferences, required).Success?
    ensures var r := ResolveAll(available, preferences, required).value;
            && |r.statuses| == |required|
            && forall i :: 0 <= i < |required| ==>
                 r.statuses[i].capability == required[i] && StatusSound(available, preferences, r.statuses[i])
  {
    if required != [] {
      var front, c := required[..|required| - 1], required[|required| - 1];
      StatusesAreSound(available, preferences, front);
      ChoiceIsSound(available, preferences, c);
      var before := ResolveAll(available, preferences, front).value.statuses;
      var last := StatusOf(available, c, Choose(available, preferences, c).value);
      assert ResolveAll(available, preferences, required).value.statuses == before + [last];
      forall i | 0 <= i < |required|
        ensures (before + [last])[i].capability == required[i]
                && StatusSound(available, preferences, (before + [last])[i])
      {
        if i < |front| {
          assert before[i].capability == front[i] && StatusSound(available, preferences, before[i]);
        }
      }
    }
  }

  /** A selection is that of whoever decides, under that source, or automatic and the least backend that will do. */
  ghost predicate SelectionSound(available: map<string, Backend>, preferences: Preferences, s: Selection) {
    && s.backendId in available && s.capability in available[s.backendId].descriptor.capabilities
    && Decides(preferences, s.capability, s.source, s.backendId)
    && (s.source == Automatic ==> LeastThatWill(available, s.capability, s.backendId))
  }

  lemma ChoiceIsSelectable(available: map<string, Backend>, preferences: Preferences, c: Capability)
    requires Choose(available, preferences, c).Success? && Choose(available, preferences, c).value.Some?
    ensures var choice := Choose(available, preferences, c).value.value;
            SelectionSound(available, preferences, Selection(c, choice.1, choice.0))
  {
    ExplicitDecides(preferences, c);
    LeastWillDo(available, c);
  }

  /** The backend a status names was selected for its capability. */
  ghost predicate Selected(selections: seq<Selection>, status: Status) {
    exists s :: s in selections && s.capability == status.capability && Some(s.backendId) == status.backendId
  }

  /** Every selection is sound, and every status that names a backend has its selection. */
  lemma {:induction false} SelectionsAreSound(available: map<string, Backend>, preferences: Preferences,
                                              required: seq<Capability>)
    requires ResolveAll(available, preferences, required).Success?
    ensures var r := ResolveAll(available, preferences, required).value;
            && (forall s :: s in r.selections ==>
                  s.capability in required && SelectionSound(available, preferences, s))
            && (forall status :: status in r.statuses && status.backendId.Some? ==> Selected(r.selections, status))
  {
    if required != [] {
      var front, c := required[..|required| - 1], required[|required| - 1];
      SelectionsAreSound(available, preferences, front);
      var r := ResolveAll(available, preferences, required).value;
      var before := ResolveAll(available, preferences, front).value;
      if Choose(available, preferences, c).value.Some? {
        ChoiceIsSelectable(available, preferences, c);
      }
      forall s | s in r.selections
        ensures s.capability in required && SelectionSound(available, preferences, s)
      {
        if s in before.selections {
          assert s.capability in front;
        }
      }
      forall status | status in r.statuses && status.backendId.Some?
        ensures Selected(r.selections, status)
      {
        if status in before.statuses {
          var s :| s in before.selections && s.capability == status.capability && Some(s.backendId) == status.backendId;
          assert s in r.selections;
        } else {
          assert r.selections[|r.selections| - 1] in r.selections;
        }
      }
    }
  }

  /**
   An explicit choice that cannot be honoured: it names no provider, or one that is
   unavailable, which only the installed state may do.
   */
  ghost predicate ExplicitFails(available: map<string, Backend>, preferences: Preferences, c: Capability) {
    exists source, id :: Decides(preferences, c, source, id) && source != Automatic &&
      !(&& id in available
        && c in available[id].descriptor.capabilities
        && (source == InstalledState || available[id].probe.available))
  }

  lemma ChoiceFailsIff(available: map<string, Backend>, preferences: Preferences, c: Capability)
    ensures Choose(available, preferences, c).Failure? <==> ExplicitFails(available, preferences, c)
  {
    ExplicitDecides(preferences, c);
  }

  /** The same choice for one capability resolves it alike, whatever else is preferred. */
  lemma {:induction false} SameChoice(available: map<string, Backend>, p: Preferences, q: Preferences,
                                      required: seq<Capability>, c: Capability)
    requires Explicit(p, c) == Explicit(q, c)
    requires ResolveAll(available, p, required).Success? && ResolveAll(available, q, required).Success?
    ensures var r, r' := ResolveAll(available, p, required).value, ResolveAll(available, q, required).value;
            && (forall s: Selection :: s.capability == c ==> (s in r.selections <==> s in r'.selections))
            && (forall s: Status :: s.capability == c ==> (s in r.statuses <==> s in r'.statuses))
  {
    if required != [] {
      var front, last := required[..|required| - 1], required[|required| - 1];
      SameChoice(available, p, q, front, c);
      var choice, choice' := Choose(available, p, last).value, Choose(available, q, last).value;
      if last == c {
        assert choice == choice';
      }
    }
  }

  /** What the command line says about a capability settles it: neither the files nor the rest can change that. */
  lemma CommandLineSettles(available: map<string, Backend>, p: Preferences, q: Preferences, required: seq<Capability>,
                           c: Capability)
    requires c in p.cli && c in q.cli && p.cli[c] == q.cli[c] != "auto" && c in required
    requires ResolveAll(available, p, required).Success? && ResolveAll(available, q, required).Success?
    ensures var r, r' := ResolveAll(available, p, required).value, ResolveAll(available, q, required).value;
            && Selection(c, p.cli[c], Cli) in r.selections
            && (forall s: Selection :: s.capability == c && s in r.selections ==> s == Selection(c, p.cli[c], Cli))
            && (forall s: Selection :: s.capability == c ==> (s in r.selections <==> s in r'.selections))
            && (forall s: Status :: s.capability == c ==> (s in r.statuses <==> s in r'.statuses))
  {
    SameChoice(available, p, q, required, c);
    SelectionsAreSound(available, p, required);
    StatusesAreSound(available, p, required);
    var r := ResolveAll(available, p, required).value;
    var i :| 0 <= i < |required| && required[i] == c;
    var status := r.statuses[i];
    assert Decides(p, c, Cli, p.cli[c]);
    assert status in r.statuses && StatusSound(available, p, status);
  }

  /** Resolving fails exactly when the explicit choice of some required capability is refused. */
  lemma {:induction false} ResolveFailsIff(available: map<string, Backend>, preferences: Preferences,
                                           required: seq<Capability>)
    ensures ResolveAll(available, preferences, required).Failure? <==>
            exists c :: c in required && ExplicitFails(available, preferences, c)
  {
    if required != [] {
      var front, last := required[..|required| - 1], required[|required| - 1];
      ResolveFailsIff(available, preferences, front);
      ChoiceFailsIff(available, preferences, last);
      assert required == front + [last];
    }
  }

  function StatusFor(statuses: seq<Status>, c: Capability): Option<Status> {
    if statuses == [] then None
    else if statuses[0].capability == c then Some(statuses[0])
    else StatusFor(statuses[1..], c)
  }

  function SelectionFor(selections: seq<Selection>, c: Capability): Option<Selection> {
    if selections == [] then None
    else if selections[0].capability == c then Some(selections[0])
    else SelectionFor(selections[1..], c)
  }

  lemma {:induction false} StatusForMember(statuses: seq<Status>, c: Capability)
    ensures StatusFor(statuses, c).Some? ==>
            StatusFor(statuses, c).value in statuses && StatusFor(statuses, c).value.capability == c
    ensures StatusFor(statuses, c).None? ==> forall s :: s in statuses ==> s.capability != c
  {
    if statuses != [] {
      StatusForMember(statuses[1..], c);
    }
  }

  lemma {:induction false} SelectionForMember(selections: seq<Selection>, c: Capability)
    ensures SelectionFor(selections, c).Some? <==> exists s :: s in selections && s.capability == c
  {
    if selections != [] {
      SelectionForMember(selections[1..], c);
      assert selections[0] in selections;
    }
  }

  /** What `find` returns for a capability is sound, and a status that names a backend has its selection. */
  lemma FoundStatusIsSound(available: map<string, Backend>, preferences: Preferences, required: seq<Capability>,
                           c: Capability)
    requires ResolveAll(available, preferences, required).Success?
    ensures var r := ResolveAll(available, preferences, required).value;
            var status := StatusFor(r.statuses, c);
            status.Some? ==>
              && status.value.capability == c && StatusSound(available, preferences, status.value)
              && (status.value.backendId.Some? ==> SelectionFor(r.selections, c).Some?)
  {
    var r := ResolveAll(available, preferences, required).value;
    StatusForMember(r.statuses, c);
    SelectionForMember(r.selections, c);
    StatusesAreSound(available, preferences, required);
    SelectionsAreSound(available, preferences, required);
  }

  ghost predicate Backed(factories: seq<Factory>, status: Status) {
    exists f :: f in factories && Some(f.descriptor.id) == status.backendId &&
                f.descriptor.contractVersion == 1 && status.capability in f.descriptor.capabilities &&
                f.probe.Success? && f.probe.value.available
  }

  lemma SupportedIsBacked(factories: seq<Factory>, preferences: Preferences, status: Status)
    requires Collect(factories).Success?
    requires StatusSound(Collect(factories).value, preferences, status)
    ensures status.supported ==> Backed(factories, status)
  {
    CollectIff(factories);
    if status.supported {
      var f :| f in factories && f.descriptor.id == status.backendId.value;
      assert Collect(factories).value[f.descriptor.id] == BackendOf(f);
    }
  }

  /**
   One status for each required capability, in order. A supported status names a
   contract-1 factory that provides the capability and whose own probe succeeded;
   an explicit command-line or configuration choice is never replaced silently.
   */
  lemma ResolutionIsHonest(factories: seq<Factory>, preferences: Preferences, order: seq<Capability>)
    requires ResolveSpec(factories, preferences, order).Success?
    ensures var statuses := ResolveSpec(factories, preferences, order).value.statuses;
            && |statuses| == |order|
            && forall i :: 0 <= i < |statuses| ==>
                 && statuses[i].capability == order[i]
                 && StatusSound(Collect(factories).value, preferences, statuses[i])
                 && (statuses[i].supported ==> Backed(factories, statuses[i]))
  {
    StatusesAreSound(Collect(factories).value, preferences, order);
    var statuses := ResolveAll(Collect(factories).value, preferences, order).value.statuses;
    forall i | 0 <= i < |statuses|
      ensures statuses[i].supported ==> Backed(factories, statuses[i])
    {
      SupportedIsBacked(factories, preferences, statuses[i]);
    }
  }

  function Position(c: Capability): nat {
    match c
    case Layout => 0
    case Install => 1
    case Identity => 2
    case Service => 3
    case Firewall => 4
    case PolicyRouting => 5
    case Tun => 6
    case AppRunner => 7
    case MountIsolation => 8
    case DesktopProxy => 9
    case PackageAdvice => 10
  }

  lemma PositionedOnce(all: seq<Capability>, c: Capability)
    requires |all| == 11 && forall i :: 0 <= i < |all| ==> Position(all[i]) == i
    ensures multiset(all)[c] == 1
  {
    assert all[Position(c)] == c;
    OccursOnce(all, c);
    assert c in multiset(all);
  }

  lemma EveryCapabilityIsListed(c: Capability)
    ensures multiset(ALL_CAPABILITIES)[c] == 1
  {
    PositionedOnce(ALL_CAPABILITIES, c);
  }

  /** A required capability is resolved exactly once, and no other is. */
  lemma InOrderIsComplete(required: set<Capability>, c: Capability)
    ensures multiset(InOrder(required))[c] == if c in required then 1 else 0
    ensures c in InOrder(required) <==> c in required
  {
    EveryCapabilityIsListed(c);
    SelectCounts(ALL_CAPABILITIES, (d: Capability) => d in required, c);
    assert c in InOrder(required) <==> c in multiset(InOrder(required));
  }
}

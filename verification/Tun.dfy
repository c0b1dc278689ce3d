/**
 Selective TUN policy: the owned fwmark rule, the owned routing table and the owned
 nft table, changed command by command (linux/mod.rs), and TunEnable/TunDisable on top.
 */
module Tun {
  import opened Prelude

  datatype Family = V4 | V6

  datatype PerFamily<T> = PerFamily(v4: T, v6: T) {
    function Get(f: Family): T {
      match f
      case V4 => v4
      case V6 => v6
    }

    function Set(f: Family, value: T): PerFamily<T> {
      match f
      case V4 => this.(v4 := value)
      case V6 => this.(v6 := value)
    }
  }

  /**
   Where a packet goes. `Foreign` is a route of the owned table that the policy did not put
   there; `MainTable` is the ordinary route of a packet that the owned table does not decide.
   */
  datatype Hop = Device | Blackhole | Unreachable | Foreign | MainTable

  const DEVICE_METRIC := 100
  const FALLBACK_METRIC := 32767
  const RULE_ATTEMPTS := 32

  /**
   Multiplicity of the owned rule, routes of the owned table for one destination, presence of
   the nft table. The keys order the routes: a default route has its metric, and a route that
   is more specific than the default is below zero.
   */
  datatype Kernel = Kernel(rules: PerFamily<nat>, routes: PerFamily<map<int, Hop>>, table: bool)

  function Fallback(f: Family): Hop {
    match f
    case V4 => Blackhole
    case V6 => Unreachable
  }

  /**
   The kernel's choice for a marked packet: the owned table is consulted only through the rule,
   lowest metric first.
   */
  ghost predicate ResolvesTo(k: Kernel, f: Family, hop: Hop) {
    if k.rules.Get(f) == 0 || k.routes.Get(f) == map[] then
      hop == MainTable
    else
      exists m :: Lowest(k.routes.Get(f), m) && hop == k.routes.Get(f)[m]
  }

  ghost predicate Lowest(routes: map<int, Hop>, m: int) {
    m in routes && forall n :: n in routes ==> m <= n
  }

  /** The owned table holds nothing but the device route and the fallback. */
  ghost predicate OwnedRoutes(f: Family, routes: map<int, Hop>) {
    forall m :: m in routes ==>
      (m == DEVICE_METRIC && routes[m] == Device) || (m == FALLBACK_METRIC && routes[m] == Fallback(f))
  }

  ghost predicate Owned(k: Kernel) {
    OwnedRoutes(V4, k.routes.v4) && OwnedRoutes(V6, k.routes.v6)
  }

  /** A marked lookup reaches the owned table, which ends in the fallback. */
  ghost predicate FailClosed(k: Kernel) {
    forall f :: k.rules.Get(f) > 0 && 32767 in k.routes.Get(f) &&
                k.routes.Get(f)[32767] == match f case V4 => Blackhole case V6 => Unreachable
  }

  ghost predicate Down(k: Kernel) {
    k == Kernel(PerFamily(0, 0), PerFamily(map[], map[]), false)
  }

  /** The hops a marked packet may take. */
  predicate Stays(f: Family, hop: Hop) {
    hop == Device || hop == Fallback(f)
  }

  ghost predicate LeakFree(k: Kernel) {
    forall f, hop :: ResolvesTo(k, f, hop) ==> Stays(f, hop)
  }

  lemma {:induction false} LeastOf(keys: set<int>)
    requires exists k :: k in keys
    ensures exists m :: m in keys && forall n :: n in keys ==> m <= n
  {
    var k :| k in keys;
    var others := keys - {k};
    assert forall o :: o in keys ==> o == k || o in others;
    if exists o :: o in others {
      LeastOf(others);
      var n :| n in others && forall o :: o in others ==> n <= o;
      var least := if k < n then k else n;
      assert least in keys && forall o :: o in keys ==> least <= o;
    }
  }

  lemma LowestExists(routes: map<int, Hop>)
    requires routes != map[]
    ensures exists m :: Lowest(routes, m)
  {
    assert (forall m :: m !in routes.Keys) ==> routes == map[];
    LeastOf(routes.Keys);
    var m :| m in routes.Keys && forall n :: n in routes.Keys ==> m <= n;
    assert Lowest(routes, m);
  }

  /** A fail-closed kernel keeps a marked packet in if and only if every foreign route has a better one that does. */
  lemma FailClosedNeverLeaks(k: Kernel)
    requires FailClosed(k)
    ensures LeakFree(k) <==>
            forall f, m :: m in k.routes.Get(f) && !Stays(f, k.routes.Get(f)[m]) ==>
              exists n :: n in k.routes.Get(f) && n < m && Stays(f, k.routes.Get(f)[n])
  {
    if LeakFree(k) {
      forall f, m | m in k.routes.Get(f) && !Stays(f, k.routes.Get(f)[m])
        ensures exists n :: n in k.routes.Get(f) && n < m && Stays(f, k.routes.Get(f)[n])
      {
        LowestExists(k.routes.Get(f));
        var n :| Lowest(k.routes.Get(f), n);
        assert ResolvesTo(k, f, k.routes.Get(f)[n]);
      }
    }
  }

  /**
   No foreign route can ever decide: each has a better fallback route, which stays when the
   device routes come and go. A route at the device metric is no shelter, because attaching
   replaces it.
   */
  ghost predicate Unshadowed(f: Family, routes: map<int, Hop>) {
    forall m :: m in routes && !Stays(f, routes[m]) ==> Shelter(f, routes, m)
  }

  ghost predicate Shelter(f: Family, routes: map<int, Hop>, m: int) {
    exists n :: n in routes && n < m && n != DEVICE_METRIC && routes[n] == Fallback(f)
  }

  /** The same before an up, which will put the fallback at its metric: only better routes than that matter. */
  ghost predicate Sheltered(k: Kernel) {
    forall f, m :: m in k.routes.Get(f) && m < FALLBACK_METRIC && !Stays(f, k.routes.Get(f)[m]) ==>
                     Shelter(f, k.routes.Get(f), m)
  }

  function ReadyRoutes(routes: PerFamily<map<int, Hop>>): PerFamily<map<int, Hop>> {
    PerFamily(routes.v4[FALLBACK_METRIC := Blackhole], routes.v6[FALLBACK_METRIC := Unreachable])
  }

  lemma ReadyTwice(routes: PerFamily<map<int, Hop>>)
    ensures ReadyRoutes(ReadyRoutes(routes)) == ReadyRoutes(routes)
  {
    var ready := ReadyRoutes(routes);
    assert ready.v4[FALLBACK_METRIC := Blackhole] == ready.v4;
    assert ready.v6[FALLBACK_METRIC := Unreachable] == ready.v6;
  }

  lemma ShelteredByUp(k: Kernel, f: Family, m: int)
    requires var ready := ReadyRoutes(k.routes).Get(f); m in ready && !Stays(f, ready[m])
    ensures Shelter(f, ReadyRoutes(k.routes).Get(f), m) <==>
            (m < FALLBACK_METRIC ==> Shelter(f, k.routes.Get(f), m))
  {
    var found, ready := k.routes.Get(f), ReadyRoutes(k.routes).Get(f);
    assert m != FALLBACK_METRIC && m in found && found[m] == ready[m];
    if m > FALLBACK_METRIC {
      assert FALLBACK_METRIC in ready && ready[FALLBACK_METRIC] == Fallback(f);
    } else {
      if n :| n in ready && n < m && n != DEVICE_METRIC && ready[n] == Fallback(f) {
        assert n in found && found[n] == Fallback(f);
      }
      if n :| n in found && n < m && n != DEVICE_METRIC && found[n] == Fallback(f) {
        assert n in ready && ready[n] == Fallback(f);
      }
    }
  }

  lemma ShelteredIff(k: Kernel)
    ensures Sheltered(k) <==> forall f :: Unshadowed(f, ReadyRoutes(k.routes).Get(f))
  {
    if Sheltered(k) {
      forall f, m | m in ReadyRoutes(k.routes).Get(f) && !Stays(f, ReadyRoutes(k.routes).Get(f)[m])
        ensures Shelter(f, ReadyRoutes(k.routes).Get(f), m)
      {
        ShelteredByUp(k, f, m);
        assert m in k.routes.Get(f);
      }
    }
    if forall f :: Unshadowed(f, ReadyRoutes(k.routes).Get(f)) {
      forall f, m | m in k.routes.Get(f) && m < FALLBACK_METRIC && !Stays(f, k.routes.Get(f)[m])
        ensures Shelter(f, k.routes.Get(f), m)
      {
        assert Unshadowed(f, ReadyRoutes(k.routes).Get(f));
        assert m in ReadyRoutes(k.routes).Get(f);
        ShelteredByUp(k, f, m);
      }
    }
  }

  function RulesRemoved(c: nat): nat {
    SaturatingSub(c, RULE_ATTEMPTS)
  }

  function RoutesUpEffect(k: Kernel): Kernel {
    k.(rules := PerFamily(RulesRemoved(k.rules.v4) + 1, RulesRemoved(k.rules.v6) + 1),
       routes := ReadyRoutes(k.routes))
  }

  function PolicyUpEffect(k: Kernel): Kernel {
    RoutesUpEffect(k).(table := true)
  }

  function RoutesDownEffect(k: Kernel): Kernel {
    k.(rules := PerFamily(RulesRemoved(k.rules.v4), RulesRemoved(k.rules.v6)), routes := PerFamily(map[], map[]))
  }

  function PolicyDownEffect(k: Kernel): Kernel {
    RoutesDownEffect(k).(table := false)
  }

  predicate FewRules(k: Kernel) {
    k.rules.v4 <= RULE_ATTEMPTS && k.rules.v6 <= RULE_ATTEMPTS
  }

  /** Rules never grow past one except by removals that failed. */
  predicate Bounded(before: PerFamily<nat>, after: PerFamily<nat>, failed: int) {
    after.v4 <= Max(before.v4, 1) + failed && after.v6 <= Max(before.v6, 1) + failed
  }

  /** No owned route is left, and no rule that one pass could remove. */
  ghost predicate TakenDown(before: Kernel, after: Kernel) {
    && after.routes == PerFamily(map[], map[])
    && after.rules.v4 <= RulesRemoved(before.rules.v4) && after.rules.v6 <= RulesRemoved(before.rules.v6)
  }

  /** Nothing owned was added. */
  ghost predicate NoMoreThan(before: Kernel, after: Kernel) {
    && after.rules.v4 <= before.rules.v4 && after.rules.v6 <= before.rules.v6
    && (after.routes == before.routes || after.routes == PerFamily(map[], map[]))
    && (after.table ==> before.table)
  }

  /** How many owned rules an up leaves, for any number found. */
  lemma RuleCountAfterUp(k: Kernel, f: Family)
    ensures PolicyUpEffect(k).rules.Get(f) == Max(k.rules.Get(f), 32) - 31
  {
  }

  /** Repeating an up changes nothing, exactly when no family held more rules than one pass can remove. */
  lemma PolicyUpIdempotentIff(k: Kernel)
    ensures PolicyUpEffect(PolicyUpEffect(k)) == PolicyUpEffect(k) <==> FewRules(k)
  {
    var up := PolicyUpEffect(k);
    assert up.routes.v4[FALLBACK_METRIC := Blackhole] == up.routes.v4;
    assert up.routes.v6[FALLBACK_METRIC := Unreachable] == up.routes.v6;
  }

  function WithoutDevice(routes: map<int, Hop>): map<int, Hop> {
    map m | m in routes && routes[m] != Device :: routes[m]
  }

  /** The default route through the device is gone, or one of several. */
  ghost predicate OneLess(routes: map<int, Hop>, routes': map<int, Hop>) {
    if exists m :: m in routes && m >= 0 && routes[m] == Device
    then exists m :: m in routes && m >= 0 && routes[m] == Device && routes' == routes - {m}
    else routes' == routes
  }

  /** One family under an attach or a detach: nothing, a device route put in, or one taken out. */
  ghost predicate RouteStep(routes: map<int, Hop>, routes': map<int, Hop>) {
    || routes' == routes
    || routes' == routes[DEVICE_METRIC := Device]
    || exists m :: m in routes && routes[m] == Device && routes' == routes - {m}
  }

  /** Attach and detach, failed or not, and the loss of the interface with all routes through it. */
  ghost predicate AttachmentStep(k: Kernel, k': Kernel) {
    && k'.rules == k.rules && k'.table == k.table
    && (|| (RouteStep(k.routes.v4, k'.routes.v4) && RouteStep(k.routes.v6, k'.routes.v6))
        || k'.routes == PerFamily(WithoutDevice(k.routes.v4), WithoutDevice(k.routes.v6)))
  }

  ghost predicate AttachmentRun(k: Kernel, trace: seq<Kernel>) {
    && trace != [] && trace[0] == k
    && forall j :: 0 <= j < |trace| - 1 ==> AttachmentStep(trace[j], trace[j + 1])
  }

  ghost predicate NeverLeaks(k: Kernel) {
    forall trace, i :: AttachmentRun(k, trace) && 0 <= i < |trace| ==> LeakFree(trace[i])
  }

  ghost predicate Safe(k: Kernel) {
    FailClosed(k) && forall f :: Unshadowed(f, k.routes.Get(f))
  }

  lemma SafeIsLeakFree(k: Kernel)
    requires Safe(k)
    ensures LeakFree(k)
  {
    forall f, m | m in k.routes.Get(f) && !Stays(f, k.routes.Get(f)[m])
      ensures exists n :: n in k.routes.Get(f) && n < m && Stays(f, k.routes.Get(f)[n])
    {
      assert Unshadowed(f, k.routes.Get(f));
      var n :| n in k.routes.Get(f) && n < m && n != DEVICE_METRIC && k.routes.Get(f)[n] == Fallback(f);
    }
    FailClosedNeverLeaks(k);
  }

  /** Device routes come and go, and at the device metric nothing else can take their place. */
  lemma RouteStepKeepsShelter(f: Family, routes: map<int, Hop>, routes': map<int, Hop>)
    requires RouteStep(routes, routes') || routes' == WithoutDevice(routes)
    requires Unshadowed(f, routes)
    ensures Unshadowed(f, routes')
    ensures FALLBACK_METRIC in routes && routes[FALLBACK_METRIC] == Fallback(f) ==>
              FALLBACK_METRIC in routes' && routes'[FALLBACK_METRIC] == Fallback(f)
  {
    forall m | m in routes' && !Stays(f, routes'[m])
      ensures Shelter(f, routes', m)
    {
      assert m in routes && routes[m] == routes'[m];
      var n :| n in routes && n < m && n != DEVICE_METRIC && routes[n] == Fallback(f);
      assert n in routes' && routes'[n] == Fallback(f);
    }
  }

  lemma StepKeepsSafe(k: Kernel, k': Kernel)
    requires Safe(k) && AttachmentStep(k, k')
    ensures Safe(k')
  {
    forall f
      ensures k'.rules.Get(f) > 0 && FALLBACK_METRIC in k'.routes.Get(f) &&
              k'.routes.Get(f)[FALLBACK_METRIC] == Fallback(f) && Unshadowed(f, k'.routes.Get(f))
    {
      assert Unshadowed(f, k.routes.Get(f));
      RouteStepKeepsShelter(f, k.routes.Get(f), k'.routes.Get(f));
    }
  }

  /** Any run of attachments from a safe kernel stays safe. */
  lemma {:induction false} AttachmentsKeepFailClosed(k: Kernel, trace: seq<Kernel>, i: nat)
    requires Safe(k) && AttachmentRun(k, trace) && i < |trace|
    ensures Safe(trace[i]) && LeakFree(trace[i])
  {
    if i > 0 {
      AttachmentsKeepFailClosed(k, trace, i - 1);
      assert AttachmentStep(trace[i - 1], trace[i - 1 + 1]);
      StepKeepsSafe(trace[i - 1], trace[i]);
    }
    SafeIsLeakFree(trace[i]);
  }

  /** Once the device routes are gone a foreign route without shelter decides, unless it was at the device metric. */
  lemma UnshelteredLeaks(k: Kernel, f: Family, m: int)
    requires k.rules.Get(f) > 0 && m in k.routes.Get(f) && !Stays(f, k.routes.Get(f)[m])
    requires forall n :: n in k.routes.Get(f) && n < m ==> !Stays(f, k.routes.Get(f)[n])
    ensures !LeakFree(k)
  {
    var routes := k.routes.Get(f);
    LowestExists(routes);
    var n :| Lowest(routes, n);
    assert ResolvesTo(k, f, routes[n]);
    assert !Stays(f, routes[n]);
  }

  function Lost(k: Kernel): Kernel {
    k.(routes := PerFamily(WithoutDevice(k.routes.v4), WithoutDevice(k.routes.v6)))
  }

  function Attached(k: Kernel): Kernel {
    k.(routes := PerFamily(k.routes.v4[DEVICE_METRIC := Device], k.routes.v6[DEVICE_METRIC := Device]))
  }

  /** A foreign route without shelter is reached by losing the interface, before or after an attach. */
  lemma LeakingRun(k: Kernel, f: Family, m: int)
    requires FailClosed(k) && m in k.routes.Get(f) && !Stays(f, k.routes.Get(f)[m])
    requires !Shelter(f, k.routes.Get(f), m)
    ensures !NeverLeaks(k)
  {
    if m == DEVICE_METRIC {
      var trace := [k, Lost(k)];
      assert AttachmentRun(k, trace);
      UnshelteredLeaks(trace[1], f, m);
    } else {
      var trace := [k, Attached(k), Lost(Attached(k))];
      assert AttachmentStep(trace[0], trace[1]) && AttachmentStep(trace[1], trace[2]);
      assert AttachmentRun(k, trace);
      UnshelteredLeaks(trace[2], f, m);
    }
  }

  /**
   After an up, no run of attachments and losses ever leaks if and only if the table was
   sheltered when the up found it: every foreign route better than the fallback metric came
   after a fallback route that attaching cannot replace.
   */
  lemma NeverLeaksIff(found: Kernel, up: Kernel)
    requires FailClosed(up) && up.routes == ReadyRoutes(found.routes)
    ensures NeverLeaks(up) <==> Sheltered(found)
  {
    ShelteredIff(found);
    if Sheltered(found) {
      forall trace, i | AttachmentRun(up, trace) && 0 <= i < |trace|
        ensures LeakFree(trace[i])
      {
        AttachmentsKeepFailClosed(up, trace, i);
      }
    } else {
      var f :| !Unshadowed(f, up.routes.Get(f));
      var m :| m in up.routes.Get(f) && !Stays(f, up.routes.Get(f)[m]) && !Shelter(f, up.routes.Get(f), m);
      LeakingRun(up, f, m);
    }
  }

  /** A table that already has a default route of a low metric: the up succeeds, and marked packets take that route. */
  lemma ForeignDefaultLeaks()
    ensures var found := Kernel(PerFamily(0, 0), PerFamily(map[50 := Foreign], map[]), false);
            !Sheltered(found) && FailClosed(PolicyUpEffect(found)) && ResolvesTo(PolicyUpEffect(found), V4, Foreign)
  {
    var found := Kernel(PerFamily(0, 0), PerFamily(map[50 := Foreign], map[]), false);
    var routes := PolicyUpEffect(found).routes.v4;
    assert Lowest(routes, 50) && routes[50] == Foreign;
    assert 50 in found.routes.Get(V4) && !Shelter(V4, found.routes.Get(V4), 50);
  }

  /** `TunInternalAction`; an attach is given the number of polls its deadline allows. */
  datatype Action =
    | PolicyUp | PolicyDown | FirewallUp | FirewallDown | RoutesUp | RoutesDown
    | AttachAction(polls: nat) | DetachAction

  datatype Occurrence = Attach(polls: nat) | Detach | InterfaceLost

  class NetworkStack {
    const enabled: bool
    const ipv6Enabled: bool
    var rules: PerFamily<nat>
    var routes: PerFamily<map<int, Hop>>
    var table: bool
    /** How many removals of something that was there have failed so far. */
    ghost var failures: nat

    function State(): Kernel
      reads this
    {
      Kernel(rules, routes, table)
    }

    constructor (enabled: bool, ipv6Enabled: bool, found: Kernel)
      ensures this.enabled == enabled && this.ipv6Enabled == ipv6Enabled
      ensures State() == found && failures == 0
    {
      this.enabled := enabled;
      this.ipv6Enabled := ipv6Enabled;
      rules, routes, table := found.rules, found.routes, found.table;
      failures := 0;
    }

    /** `ip rule del`: fails when there is no rule, and may fail anyway. */
    method DeleteRule(f: Family) returns (ok: bool)
      modifies this`rules, this`failures
      ensures ok ==> old(rules).Get(f) > 0 && rules == old(rules).Set(f, old(rules).Get(f) - 1)
      ensures !ok ==> rules == old(rules)
      ensures failures == old(failures) + if ok || rules.Get(f) == 0 then 0 else 1
    {
      if rules.Get(f) == 0 {
        return false;
      }
      ok := *;
      if ok {
        rules := rules.Set(f, rules.Get(f) - 1);
      } else {
        failures := failures + 1;
      }
    }

    method AddRule(f: Family) returns (ok: bool)
      modifies this`rules
      ensures rules == if ok then old(rules).Set(f, old(rules).Get(f) + 1) else old(rules)
    {
      ok := *;
      if ok {
        rules := rules.Set(f, rules.Get(f) + 1);
      }
    }

    method ReplaceRoute(f: Family, metric: nat, hop: Hop) returns (ok: bool)
      modifies this`routes
      ensures routes == if ok then old(routes).Set(f, old(routes).Get(f)[metric := hop]) else old(routes)
    {
      ok := *;
      if ok {
        routes := routes.Set(f, routes.Get(f)[metric := hop]);
      }
    }

    /** `ip route del default dev <tun>`: one default route through the device, of whatever metric. */
    method DeleteDeviceRoute(f: Family)
      modifies this`routes, this`failures
      ensures routes == old(routes).Set(f, routes.Get(f))
      ensures routes == old(routes) ||
              exists m :: m in old(routes).Get(f) && old(routes).Get(f)[m] == Device &&
                          routes.Get(f) == old(routes).Get(f) - {m}
      ensures old(failures) <= failures
      ensures failures == old(failures) ==> OneLess(old(routes).Get(f), routes.Get(f))
    {
      var ok: bool := *;
      if metric :| metric in routes.Get(f) && metric >= 0 && routes.Get(f)[metric] == Device {
        if ok {
          routes := routes.Set(f, routes.Get(f) - {metric});
        } else {
          failures := failures + 1;
        }
      }
    }

    method FlushTable(f: Family)
      modifies this`routes, this`failures
      ensures routes == old(routes) || routes == old(routes).Set(f, map[])
      ensures failures == old(failures) + if routes.Get(f) == map[] then 0 else 1
    {
      var ok: bool := *;
      if ok {
        routes := routes.Set(f, map[]);
      }
      failures := failures + if routes.Get(f) == map[] then 0 else 1;
    }

    /** At most 32 deletions, stopping at the first that fails. */
    method RemoveRule(f: Family)
      modifies this`rules, this`failures
      ensures rules == old(rules).Set(f, rules.Get(f))
      ensures RulesRemoved(old(rules).Get(f)) <= rules.Get(f) <= old(rules).Get(f)
      ensures old(failures) <= failures
      ensures failures == old(failures) ==> rules.Get(f) == RulesRemoved(old(rules).Get(f))
    {
      for i := 0 to RULE_ATTEMPTS
        invariant rules == old(rules).Set(f, rules.Get(f))
        invariant rules.Get(f) + i == old(rules).Get(f)
        invariant failures == old(failures)
      {
        var ok := DeleteRule(f);
        if !ok { break; }
      }
    }

    /** One family of `routes_up_inner`. However removal goes, the rules grow past one only by failed removals. */
    method FamilyUp(f: Family) returns (ok: bool)
      modifies this`rules, this`routes, this`failures
      ensures rules == old(rules).Set(f, rules.Get(f)) && routes == old(routes).Set(f, routes.Get(f))
      ensures old(failures) <= failures
      ensures rules.Get(f) <= Max(old(rules).Get(f), 1) + failures - old(failures)
      ensures ok ==> rules.Get(f) > 0 && routes.Get(f) == old(routes).Get(f)[FALLBACK_METRIC := Fallback(f)]
      ensures ok && failures == old(failures) ==> rules.Get(f) == RulesRemoved(old(rules).Get(f)) + 1
      ensures !ok ==> routes == old(routes)
      ensures failures == old(failures) ==>
                rules.Get(f) == RulesRemoved(old(rules).Get(f)) || rules.Get(f) == RulesRemoved(old(rules).Get(f)) + 1
    {
      RemoveRule(f);
      ok := AddRule(f);
      if !ok { return; }
      ok := ReplaceRoute(f, FALLBACK_METRIC, Fallback(f));
    }

    method RoutesUpInner() returns (ok: bool)
      modifies this`rules, this`routes, this`failures
      ensures Owned(old(State())) ==> Owned(State())
      ensures ok ==> FailClosed(State())
      ensures ok ==> routes == ReadyRoutes(old(routes))
      ensures old(failures) <= failures
      ensures Bounded(old(rules), rules, failures - old(failures))
      ensures ok && failures == old(failures) ==> State() == RoutesUpEffect(old(State()))
      ensures !ok && failures == old(failures) ==>
                RulesRemoved(rules.v4) <= RulesRemoved(old(rules).v4)
                  && RulesRemoved(rules.v6) <= RulesRemoved(old(rules).v6)
    {
      ok := FamilyUp(V4);
      if !ok { return; }
      ok := FamilyUp(V6);
    }

    /** A failure takes both families down again; what one pass cannot remove of many rules stays. */
    method RoutesUp() returns (ok: bool)
      modifies this`rules, this`routes, this`failures
      ensures Owned(old(State())) ==> Owned(State())
      ensures ok ==> FailClosed(State())
      ensures ok ==> routes == ReadyRoutes(old(routes))
      ensures old(failures) <= failures
      ensures Bounded(old(rules), rules, failures - old(failures))
      ensures ok && failures == old(failures) ==> State() == RoutesUpEffect(old(State()))
      ensures !ok && failures == old(failures) ==> TakenDown(old(State()), State()) && table == old(table)
    {
      ok := RoutesUpInner();
      if !ok {
        RoutesDown();
      }
    }

    /** Never reports an error. */
    method RoutesDown()
      modifies this`rules, this`routes, this`failures
      ensures Owned(old(State())) ==> Owned(State())
      ensures old(failures) <= failures
      ensures rules.v4 <= old(rules).v4 && rules.v6 <= old(rules).v6
      ensures failures == old(failures) ==> State() == RoutesDownEffect(old(State()))
    {
      RemoveRule(V4);
      RemoveRule(V6);
      FlushTable(V4);
      FlushTable(V6);
    }

    method FirewallDown() returns (ok: bool)
      modifies this`table, this`failures
      ensures old(failures) <= failures
      ensures failures == old(failures) ==> !table
      ensures table ==> old(table)
    {
      var ran: bool := *;
      var listed: bool := *;
      if !ran || !table || !listed {
        failures := failures + if table then 1 else 0;
        return ran;
      }
      ok := *;
      if ok {
        table := false;
      } else {
        failures := failures + 1;
      }
    }

    method FirewallUp() returns (ok: bool)
      modifies this`table, this`failures
      ensures ok ==> table
      ensures !ok && table ==> old(table)
      ensures old(failures) <= failures
    {
      ok := *; // group lookup and rules file
      if !ok { return; }
      ok := FirewallDown();
      if !ok { return; }
      ok := *; // nft loads the file as one transaction
      if ok {
        table := true;
      } else {
        var _ := FirewallDown();
      }
    }

    method PolicyUp() returns (ok: bool)
      modifies this`rules, this`routes, this`table, this`failures
      ensures Owned(old(State())) ==> Owned(State())
      ensures ok ==> FailClosed(State()) && table
      ensures ok ==> routes == ReadyRoutes(old(routes))
      ensures old(failures) <= failures
      ensures Bounded(old(rules), rules, failures - old(failures))
      ensures ok && failures == old(failures) ==> State() == PolicyUpEffect(old(State()))
      ensures ok && failures == old(failures) ==>
                forall f :: rules.Get(f) == Max(old(rules).Get(f), RULE_ATTEMPTS) - (RULE_ATTEMPTS - 1)
      ensures !ok && failures == old(failures) ==> NoMoreThan(old(State()), State())
    {
      ok := FirewallUp();
      if !ok { return; }
      ok := RoutesUp();
      if !ok {
        var _ := FirewallDown();
        return;
      }
      RuleCountAfterUp(old(State()), V4);
      RuleCountAfterUp(old(State()), V6);
    }

    method PolicyDown() returns (ok: bool)
      modifies this`rules, this`routes, this`table, this`failures
      ensures Owned(old(State())) ==> Owned(State())
      ensures old(failures) <= failures
      ensures failures == old(failures) ==> State() == PolicyDownEffect(old(State()))
      ensures rules.v4 <= old(rules).v4 && rules.v6 <= old(rules).v6
    {
      RoutesDown();
      ok := FirewallDown();
    }

    /** Wait for the interface for as many polls as the deadline allows, then add the device routes. */
    method AttachTun(polls: nat) returns (ok: bool)
      modifies this`routes
      ensures AttachmentStep(old(State()), State())
      ensures ok && enabled ==> routes.v4 == old(routes).v4[DEVICE_METRIC := Device]
      ensures ok && enabled && ipv6Enabled ==> routes.v6 == old(routes).v6[DEVICE_METRIC := Device]
      ensures !enabled ==> ok && routes == old(routes)
      ensures !ipv6Enabled ==> routes.v6 == old(routes).v6
    {
      if !enabled { return true; }
      var found := false;
      for i := 0 to polls
        invariant routes == old(routes)
      {
        var ran: bool := *;
        if !ran { return false; }
        found := *;
        if found { break; }
      }
      if !found { return false; }
      ok := ReplaceRoute(V4, DEVICE_METRIC, Device);
      if !ok { return; }
      if ipv6Enabled {
        ok := ReplaceRoute(V6, DEVICE_METRIC, Device);
      }
    }

    /** Never reports an error. */
    method DetachTun()
      modifies this`routes, this`failures
      ensures AttachmentStep(old(State()), State())
      ensures old(failures) <= failures
      ensures failures == old(failures) ==> Detached(old(State()), State())
    {
      if !enabled { return; }
      DeleteDeviceRoute(V4);
      if ipv6Enabled {
        DeleteDeviceRoute(V6);
      }
    }

    ghost predicate Detached(k: Kernel, k': Kernel)
      reads this
    {
      && k'.rules == k.rules && k'.table == k.table
      && (if enabled then OneLess(k.routes.v4, k'.routes.v4) else k'.routes.v4 == k.routes.v4)
      && (if enabled && ipv6Enabled then OneLess(k.routes.v6, k'.routes.v6) else k'.routes.v6 == k.routes.v6)
    }

    /** What an action does when nothing it has to remove stays. */
    ghost predicate Done(action: Action, k: Kernel, ok: bool, k': Kernel)
      reads this
    {
      match action
      case PolicyUp => ok ==> k' == PolicyUpEffect(k)
      case PolicyDown => k' == PolicyDownEffect(k)
      case FirewallUp => k' == k.(table := k'.table) && (ok ==> k'.table)
      case FirewallDown => k' == k.(table := false)
      case RoutesUp => ok ==> k' == RoutesUpEffect(k)
      case RoutesDown => k' == RoutesDownEffect(k)
      case AttachAction(_) =>
        && k' == k.(routes := k'.routes)
        && (ok && enabled ==> k'.routes.v4 == k.routes.v4[100 := Device])
        && (ok && enabled && ipv6Enabled ==> k'.routes.v6 == k.routes.v6[100 := Device])
        && (!enabled ==> k' == k)
      case DetachAction => ok && Detached(k, k')
    }

    /** The kernel drops every route through an interface that disappears. */
    method LoseInterface()
      modifies this`routes
      ensures State() == Lost(old(State())) && AttachmentStep(old(State()), State())
    {
      routes := PerFamily(WithoutDevice(routes.v4), WithoutDevice(routes.v6));
    }

    method RunTunInternal(action: Action) returns (ok: bool)
      modifies this`rules, this`routes, this`table, this`failures
      ensures ok && action.PolicyUp? ==> FailClosed(State()) && table
      ensures failures == old(failures) ==> Done(action, old(State()), ok, State())
      ensures Owned(old(State())) ==> Owned(State())
      ensures old(failures) <= failures
      ensures Bounded(old(rules), rules, failures - old(failures))
    {
      match action
      case PolicyUp => ok := PolicyUp();
      case PolicyDown => ok := PolicyDown();
      case FirewallUp => ok := FirewallUp();
      case FirewallDown => ok := FirewallDown();
      case RoutesUp => ok := RoutesUp();
      case RoutesDown => RoutesDown(); ok := true;
      case AttachAction(polls) => ok := AttachTun(polls);
      case DetachAction => DetachTun(); ok := true;
    }

    /**
     From a clean kernel, after any run of actions, failed ones included, each family has
     at most one owned rule and one more for each removal that failed.
     */
    method RunActions(actions: seq<Action>) returns (ghost trace: seq<Kernel>, ghost failed: seq<nat>)
      requires Down(State()) && failures == 0
      modifies this`rules, this`routes, this`table, this`failures
      ensures |trace| == |failed| == |actions| + 1 && trace[|actions|] == State() && failed[|actions|] == failures
      ensures forall i :: 0 <= i <= |actions| ==>
                Owned(trace[i]) && trace[i].rules.v4 <= 1 + failed[i] && trace[i].rules.v6 <= 1 + failed[i]
    {
      trace, failed := [State()], [0];
      for i := 0 to |actions|
        invariant |trace| == |failed| == i + 1 && trace[i] == State() && failed[i] == failures
        invariant forall k :: 0 <= k <= i ==>
                    Owned(trace[k]) && trace[k].rules.v4 <= 1 + failed[k] && trace[k].rules.v6 <= 1 + failed[k]
      {
        var _ := RunTunInternal(actions[i]);
        trace, failed := trace + [State()], failed + [failures];
      }
    }

    /**
     From a successful PolicyUp on, no sequence of attachments and losses leaks a marked
     packet, if the table was sheltered when PolicyUp found it; otherwise some sequence does.
     */
    method PolicySession(occurrences: seq<Occurrence>) returns (up: bool, ghost trace: seq<Kernel>)
      modifies this`rules, this`routes, this`table, this`failures
      ensures up ==> |trace| == |occurrences| + 1 && trace[|trace| - 1] == State()
      ensures up ==> FailClosed(trace[0]) && (NeverLeaks(trace[0]) <==> Sheltered(old(State())))
      ensures up && Sheltered(old(State())) ==> forall i :: 0 <= i < |trace| ==> LeakFree(trace[i])
    {
      up := PolicyUp();
      trace := [State()];
      if !up { return; }
      NeverLeaksIff(old(State()), State());
      for i := 0 to |occurrences|
        invariant |trace| == i + 1 && trace[i] == State()
        invariant FailClosed(trace[0]) && (NeverLeaks(trace[0]) <==> Sheltered(old(State())))
        invariant AttachmentRun(trace[0], trace)
      {
        match occurrences[i] {
          case Attach(polls) =>
            var _ := AttachTun(polls);
          case Detach =>
            DetachTun();
          case InterfaceLost =>
            LoseInterface();
        }
        trace := trace + [State()];
      }
    }
  }

  /** What the service manager was asked for. */
  datatype UnitCall = EnablePolicy | StartPolicy | RestartXray | StopPolicy | DisablePolicy

  /** The manager's TUN operations and the unit xray-tun-policy.service, a oneshot that remains active. */
  class TunManager {
    const network: NetworkStack
    var unitEnabled: bool
    var unitActive: bool
    ghost var calls: seq<UnitCall>

    constructor (network: NetworkStack)
      ensures this.network == network && !unitEnabled && !unitActive && calls == []
    {
      this.network := network;
      unitEnabled, unitActive := false, false;
      calls := [];
    }

    /** `systemctl restart xray.service`. */
    method RestartService() returns (ok: bool)
      modifies this`calls
      ensures calls == old(calls) + [RestartXray]
    {
      ok := *;
      calls := calls + [RestartXray];
    }

    method EnableUnit() returns (ok: bool)
      modifies this`unitEnabled, this`calls
      ensures calls == old(calls) + [EnablePolicy]
      ensures unitEnabled == (old(unitEnabled) || ok)
    {
      ok := *;
      unitEnabled := unitEnabled || ok;
      calls := calls + [EnablePolicy];
    }

    method DisableUnit() returns (ok: bool)
      modifies this`unitEnabled, this`calls
      ensures calls == old(calls) + [DisablePolicy]
      ensures unitEnabled == (old(unitEnabled) && !ok)
    {
      ok := *;
      unitEnabled := unitEnabled && !ok;
      calls := calls + [DisablePolicy];
    }

    /** ExecStart runs PolicyUp unless the unit is already active; systemctl may still report failure. */
    method StartUnit() returns (ok: bool)
      modifies this`unitActive, this`calls, network`rules, network`routes, network`table, network`failures
      ensures calls == old(calls) + [StartPolicy]
      ensures ok ==> unitActive
      ensures old(network.failures) <= network.failures
      ensures Bounded(old(network.rules), network.rules, network.failures - old(network.failures))
      ensures ok && network.failures == old(network.failures) ==>
                network.State() == if old(unitActive) then old(network.State())
                  else PolicyUpEffect(old(network.State()))
      ensures ok ==> FailClosed(network.State()) || (old(unitActive) && network.State() == old(network.State()))
      ensures ok ==> network.routes == if old(unitActive) then old(network.routes) else ReadyRoutes(old(network.routes))
      ensures ok && old(network.table) ==> network.table
    {
      calls := calls + [StartPolicy];
      ok := *;
      if !ok || unitActive { return; }
      ok := network.PolicyUp();
      if !ok { return; }
      unitActive := true;
      ok := *;
    }

    /** ExecStop runs PolicyDown if the unit was active. */
    method StopUnit() returns (ok: bool)
      modifies this`unitActive, this`calls, network`rules, network`routes, network`table, network`failures
      ensures calls == old(calls) + [StopPolicy]
      ensures ok ==> !unitActive
      ensures unitActive || !old(unitActive) ==>
                unitActive == old(unitActive) && network.State() == old(network.State())
      ensures old(unitActive) && !unitActive && network.failures == old(network.failures) ==>
                network.State() == PolicyDownEffect(old(network.State()))
      ensures old(network.failures) <= network.failures
      ensures network.rules.v4 <= old(network.rules).v4 && network.rules.v6 <= old(network.rules).v6
    {
      calls := calls + [StopPolicy];
      ok := *;
      if !ok || !unitActive { return; }
      ok := network.PolicyDown();
      unitActive := false;
    }

    /** Routes first, then the firewall; both results are discarded by every failure path. */
    method CleanUp() returns (ok: bool)
      modifies network`rules, network`routes, network`table, network`failures
      ensures old(network.failures) <= network.failures
      ensures network.failures == old(network.failures) ==> network.State() == PolicyDownEffect(old(network.State()))
    {
      network.RoutesDown();
      ok := network.FirewallDown();
    }

    /** Firewall, routes and enablement, each compensated by what came before it. */
    method BringUp() returns (ok: bool)
      modifies this`unitEnabled, this`calls, network`rules, network`routes, network`table, network`failures
      ensures calls == old(calls) + [EnablePolicy] || (!ok && calls == old(calls))
      ensures ok ==> FailClosed(network.State()) && network.table && unitEnabled
      ensures ok ==> network.routes == ReadyRoutes(old(network.routes))
      ensures old(network.failures) <= network.failures
      ensures ok && network.failures == old(network.failures) ==>
              network.State() == PolicyUpEffect(old(network.State()))
      ensures !ok && network.failures == old(network.failures) ==> NoMoreThan(old(network.State()), network.State())
      ensures old(unitEnabled) ==> unitEnabled
    {
      ok := network.FirewallUp();
      if !ok { return; }
      ok := network.RoutesUp();
      if !ok {
        var _ := network.FirewallDown();
        return;
      }
      ok := EnableUnit();
      if !ok {
        var _ := CleanUp();
      }
    }

    /**
     Success is one PolicyUp, and a second one by the unit's ExecStart unless the unit was
     active. A failure leaves no more than there was before: nothing, if there was nothing.
     It does not undo the enablement of the unit.
     */
    method TunEnable() returns (ok: bool)
      modifies this, network`rules, network`routes, network`table, network`failures
      ensures ok ==> FailClosed(network.State()) && network.table && unitEnabled && unitActive
      ensures ok ==> (NeverLeaks(network.State()) <==> Sheltered(old(network.State())))
      ensures old(network.failures) <= network.failures
      ensures ok && network.failures == old(network.failures) ==>
                var once := PolicyUpEffect(old(network.State()));
                network.State() == if old(unitActive) then once else PolicyUpEffect(once)
      ensures ok && network.failures == old(network.failures) && FewRules(old(network.State())) ==>
                network.State() == PolicyUpEffect(old(network.State()))
      ensures !ok && network.failures == old(network.failures) ==> NoMoreThan(old(network.State()), network.State())
      ensures !ok && network.failures == old(network.failures) && Down(old(network.State())) ==> Down(network.State())
      ensures !ok && old(unitEnabled) ==> unitEnabled
      ensures ok ==> calls == old(calls) + [EnablePolicy, StartPolicy, RestartXray]
      ensures !ok ==>
                || calls == old(calls) || calls == old(calls) + [EnablePolicy]
                || calls == old(calls) + [EnablePolicy, StartPolicy]
                || calls == old(calls) + [EnablePolicy, StartPolicy, RestartXray, StopPolicy]
    {
      ok := BringUp();
      if !ok { return; }
      PolicyUpIdempotentIff(old(network.State()));
      ok := StartUnit();
      if !ok {
        var _ := CleanUp();
        return;
      }
      ok := RestartService();
      if !ok {
        var _ := StopUnit();
        var _ := CleanUp();
        return;
      }
      ReadyTwice(old(network.routes));
      NeverLeaksIff(old(network.State()), network.State());
    }

    /** `TunDisable` and `TunCleanup`: whatever is reported, what one pass can remove is gone. */
    method TunDisable() returns (ok: bool)
      modifies this, network`rules, network`routes, network`table, network`failures
      ensures old(network.failures) <= network.failures
      ensures network.failures == old(network.failures) ==>
                TakenDown(old(network.State()), network.State()) && !network.table
      ensures network.failures == old(network.failures) && FewRules(old(network.State())) ==> Down(network.State())
      ensures ok ==> !unitEnabled
      ensures unitActive ==> old(unitActive)
      ensures calls == old(calls) + [StopPolicy] || calls == old(calls) + [StopPolicy, DisablePolicy]
      ensures ok ==> calls == old(calls) + [StopPolicy, DisablePolicy]
    {
      var _ := StopUnit();
      ok := CleanUp();
      if !ok { return; }
      ok := DisableUnit();
    }
  }
}

/**
 `probe_all_streaming` as an interleaving of atomic steps: one task per node behind
 a semaphore, a shared cancel flag, and the loop that joins tasks in any order.
 Memory is sequentially consistent.
 */
module Probe {
  import opened Prelude

  datatype ProbeResult = Cancelled | Latency(ms: nat) | Error(message: string)

  /** A task's program counter. The permit is held from `Holding` to `Reported`. */
  datatype Phase =
    | Unspawned
    | Waiting
    | Holding
    | Cleared
    | Doomed
    | Probing
    | Reported(result: ProbeResult)
    | Finished(result: ProbeResult)
    | Panicked
    | Joined(result: ProbeResult)
    | JoinedPanic

  datatype Kind = ProbeStarted | ProbeSucceeded | ProbeFailed | ProbeCancelled

  datatype Event = Event(task: nat, kind: Kind)

  datatype Outcome = Outcome(nodeId: string, result: ProbeResult)

  /** `listening` is whether a receiver for the stream exists. */
  datatype State = State(
    ids: seq<string>,
    limit: nat,
    phases: seq<Phase>,
    permits: nat,
    cancelled: bool,
    events: seq<Event>,
    outcomes: seq<Outcome>,
    stream: seq<Outcome>,
    listening: bool)

  /** What one task, or the joining loop on its behalf, does next. */
  datatype Move =
    | Spawn | Acquire | ReadFlag | EmitCancelled | EmitStarted
    | Report(result: ProbeResult) | Panic | Release | Join

  datatype Action = Task(task: nat, move: Move) | SetCancel | HangUp

  function Start(ids: seq<string>, concurrency: nat, streaming: bool): State {
    var limit := Max(concurrency, 1);
    State(ids, limit, seq(|ids|, i => Unspawned), limit, false, [], [], [], streaming)
  }

  predicate HoldsPermit(p: Phase) {
    p.Holding? || p.Cleared? || p.Doomed? || p.Probing? || p.Reported?
  }

  predicate IsCleared(p: Phase) {
    p.Cleared?
  }

  predicate AllSpawned(s: State) {
    forall i :: 0 <= i < |s.phases| ==> !s.phases[i].Unspawned?
  }

  predicate Complete(s: State) {
    forall i :: 0 <= i < |s.phases| ==> s.phases[i].Joined? || s.phases[i].JoinedPanic?
  }

  /** Which phase a move starts from. */
  predicate From(p: Phase, m: Move) {
    match m
    case Spawn => p.Unspawned?
    case Acquire => p.Waiting?
    case ReadFlag => p.Holding?
    case EmitCancelled => p.Doomed?
    case EmitStarted => p.Cleared?
    case Report(result) => p.Probing? && !result.Cancelled?
    case Panic => p.Probing?
    case Release => p.Reported?
    case Join => p.Finished? || p.Panicked?
  }

  /** Which phase it leads to. */
  function After(p: Phase, m: Move, cancelled: bool): Phase
    requires From(p, m)
  {
    match m
    case Spawn => Waiting
    case Acquire => Holding
    case ReadFlag => if cancelled then Doomed else Cleared
    case EmitCancelled => Reported(Cancelled)
    case EmitStarted => Probing
    case Report(result) => Reported(result)
    case Panic => Panicked
    case Release => Finished(p.result)
    case Join => if p.Panicked? then JoinedPanic else Joined(p.result)
  }

  function Emitted(m: Move): seq<Kind> {
    match m
    case EmitCancelled => [ProbeCancelled]
    case EmitStarted => [ProbeStarted]
    case Report(result) => [ReportKind(result)]
    case _ => []
  }

  /** Tasks are spawned in order, a permit must be free, and joining starts after the last spawn. */
  predicate Enabled(s: State, a: Action) {
    match a
    case SetCancel => !s.cancelled
    case HangUp => s.listening
    case Task(i, m) =>
      && i < |s.phases| == |s.ids|
      && From(s.phases[i], m)
      && (m.Spawn? ==> forall j :: 0 <= j < i ==> !s.phases[j].Unspawned?)
      && (m.Acquire? ==> s.permits > 0)
      && (m.Join? ==> AllSpawned(s))
  }

  /** What a join hands to the caller and, while someone listens, to the stream. */
  function Answer(s: State, i: nat, m: Move): seq<Outcome>
    requires i < |s.phases| == |s.ids|
  {
    if m.Join? && s.phases[i].Finished? then [Outcome(s.ids[i], s.phases[i].result)] else []
  }

  function Step(s: State, a: Action): State
    requires Enabled(s, a)
  {
    match a
    case SetCancel => s.(cancelled := true)
    case HangUp => s.(listening := false)
    case Task(i, m) =>
      s.(phases := s.phases[i := After(s.phases[i], m, s.cancelled)],
         permits := if m.Acquire? then s.permits - 1 else if m.Release? || m.Panic? then s.permits + 1 else s.permits,
         events := s.events + Tagged(i, Emitted(m)),
         outcomes := s.outcomes + Answer(s, i, m),
         stream := if s.listening then s.stream + Answer(s, i, m) else s.stream)
  }

  function Tagged(task: nat, kinds: seq<Kind>): seq<Event> {
    if kinds == [] then [] else [Event(task, kinds[0])]
  }

  function ReportKind(result: ProbeResult): Kind {
    if result.Latency? then ProbeSucceeded else ProbeFailed
  }

  /** How many tasks are in a phase that satisfies `p`. */
  function Count(phases: seq<Phase>, p: Phase -> bool): nat {
    if phases == [] then 0 else Count(phases[1..], p) + (if p(phases[0]) then 1 else 0)
  }

  lemma {:induction false} CountUpdate(phases: seq<Phase>, p: Phase -> bool, i: nat, phase: Phase)
    requires i < |phases|
    ensures Count(phases[i := phase], p) + (if p(phases[i]) then 1 else 0) ==
            Count(phases, p) + (if p(phase) then 1 else 0)
  {
    if i == 0 {
      assert phases[i := phase][1..] == phases[1..];
    } else {
      CountUpdate(phases[1..], p, i - 1, phase);
      assert phases[i := phase][1..] == phases[1..][i - 1 := phase];
    }
  }

  lemma {:induction false} CountNone(phases: seq<Phase>, p: Phase -> bool)
    requires forall i :: 0 <= i < |phases| ==> !p(phases[i])
    ensures Count(phases, p) == 0
  {
    if phases != [] {
      CountNone(phases[1..], p);
    }
  }

  lemma {:induction false} CountBelow(phases: seq<Phase>, p: Phase -> bool, q: Phase -> bool)
    requires forall x :: p(x) ==> q(x)
    ensures Count(phases, p) <= Count(phases, q)
  {
    if phases != [] {
      CountBelow(phases[1..], p, q);
    }
  }

  /** The kinds of the events of one task, in order. */
  function Kinds(events: seq<Event>, task: nat): seq<Kind> {
    if events == [] then []
    else
      var last := events[|events| - 1];
      Kinds(events[..|events| - 1], task) + (if last.task == task then [last.kind] else [])
  }

  lemma KindsOfSnoc(events: seq<Event>, e: Event, task: nat)
    ensures Kinds(events + [e], task) == Kinds(events, task) + (if e.task == task then [e.kind] else [])
  {
    assert (events + [e])[..|events|] == events;
  }

  function Starts(events: seq<Event>): nat {
    if events == [] then 0
    else Starts(events[..|events| - 1]) + (if events[|events| - 1].kind.ProbeStarted? then 1 else 0)
  }

  lemma StartsOfSnoc(events: seq<Event>, e: Event)
    ensures Starts(events + [e]) == Starts(events) + (if e.kind.ProbeStarted? then 1 else 0)
  {
    assert (events + [e])[..|events|] == events;
  }

  /** What a task in this phase has emitted so far. */
  function History(p: Phase): seq<Kind> {
    match p
    case Probing => [ProbeStarted]
    case Panicked => [ProbeStarted]
    case JoinedPanic => [ProbeStarted]
    case Reported(result) => FullHistory(result)
    case Finished(result) => FullHistory(result)
    case Joined(result) => FullHistory(result)
    case _ => []
  }

  function FullHistory(result: ProbeResult): seq<Kind> {
    if result.Cancelled? then [ProbeCancelled] else [ProbeStarted, ReportKind(result)]
  }

  /** The sum of the values present. */
  function Tally<T>(values: seq<Option<T>>): multiset<T> {
    if values == [] then multiset{}
    else (if values[0].Some? then multiset{values[0].value} else multiset{}) + Tally(values[1..])
  }

  lemma {:induction false} TallyFill<T>(values: seq<Option<T>>, i: nat, x: T)
    requires i < |values| && values[i].None?
    ensures Tally(values[i := Some(x)]) == Tally(values) + multiset{x}
  {
    var filled := values[i := Some(x)];
    if i == 0 {
      assert filled[1..] == values[1..];
    } else {
      TallyFill(values[1..], i - 1, x);
      assert filled[1..] == values[1..][i - 1 := Some(x)];
      assert filled[0] == values[0];
    }
  }

  lemma {:induction false} TallyFull<T>(values: seq<Option<T>>, xs: seq<T>)
    requires |values| == |xs| && forall i :: 0 <= i < |xs| ==> values[i] == Some(xs[i])
    ensures Tally(values) == multiset(xs)
  {
    if xs != [] {
      TallyFull(values[1..], xs[1..]);
      MultisetOfHeadAndTail(xs);
    }
  }

  lemma {:induction false} TallyEmpty<T>(values: seq<Option<T>>)
    requires forall i :: 0 <= i < |values| ==> values[i].None?
    ensures Tally(values) == multiset{}
  {
    if values != [] {
      TallyEmpty(values[1..]);
    }
  }

  /** Outcomes already joined, task by task. */
  function JoinedOutcomes(s: State): seq<Option<Outcome>>
    requires |s.phases| == |s.ids|
  {
    seq(|s.ids|, i requires 0 <= i < |s.ids| =>
      if s.phases[i].Joined? then Some(Outcome(s.ids[i], s.phases[i].result)) else None)
  }

  function JoinedIds(s: State): seq<Option<string>>
    requires |s.phases| == |s.ids|
  {
    seq(|s.ids|, i requires 0 <= i < |s.ids| => if s.phases[i].Joined? then Some(s.ids[i]) else None)
  }

  function IdsOf(outcomes: seq<Outcome>): seq<string> {
    seq(|outcomes|, i requires 0 <= i < |outcomes| => outcomes[i].nodeId)
  }

  /** The collected outcomes are those of the joined tasks. */
  ghost predicate Accounted(s: State) {
    && |s.phases| == |s.ids|
    && multiset(s.outcomes) == Tally(JoinedOutcomes(s))
    && multiset(IdsOf(s.outcomes)) == Tally(JoinedIds(s))
  }

  ghost predicate Inv(s: State) {
    && |s.phases| == |s.ids| && s.limit > 0
    && s.permits + Count(s.phases, HoldsPermit) == s.limit
    && (forall i :: 0 <= i < |s.phases| ==> Kinds(s.events, i) == History(s.phases[i]))
    && Accounted(s)
    && s.stream <= s.outcomes
    && (s.listening ==> s.stream == s.outcomes)
  }

  lemma StartInv(ids: seq<string>, concurrency: nat, streaming: bool)
    ensures Inv(Start(ids, concurrency, streaming).(listening := true))
    ensures Inv(Start(ids, concurrency, streaming))
  {
    var s := Start(ids, concurrency, streaming);
    CountNone(s.phases, HoldsPermit);
    TallyEmpty(JoinedOutcomes(s));
    TallyEmpty(JoinedIds(s));
    assert JoinedOutcomes(s.(listening := true)) == JoinedOutcomes(s);
    assert JoinedIds(s.(listening := true)) == JoinedIds(s);
  }

  lemma MoveKeepsPermits(p: Phase, m: Move, cancelled: bool)
    requires From(p, m)
    ensures HoldsPermit(p) <==> !m.Spawn? && !m.Acquire? && !m.Join?
    ensures HoldsPermit(After(p, m, cancelled)) <==> !m.Spawn? && !m.Release? && !m.Panic? && !m.Join?
  {
  }

  lemma MoveExtendsHistory(p: Phase, m: Move, cancelled: bool)
    requires From(p, m) && (p.Doomed? || p.Cleared? || p.Probing? || Emitted(m) == [])
    ensures History(After(p, m, cancelled)) == History(p) + Emitted(m)
  {
  }

  lemma StepKeepsPermits(s: State, a: Action)
    requires Inv(s) && Enabled(s, a)
    ensures Step(s, a).permits + Count(Step(s, a).phases, HoldsPermit) == s.limit
  {
    if a.Task? {
      MoveKeepsPermits(s.phases[a.task], a.move, s.cancelled);
      CountUpdate(s.phases, HoldsPermit, a.task, After(s.phases[a.task], a.move, s.cancelled));
    }
  }

  lemma StepKeepsHistories(s: State, a: Action, i: nat)
    requires Inv(s) && Enabled(s, a) && i < |s.phases|
    ensures Kinds(Step(s, a).events, i) == History(Step(s, a).phases[i])
  {
    if a.Task? {
      if Emitted(a.move) == [] {
        assert s.events + Tagged(a.task, Emitted(a.move)) == s.events;
      } else {
        KindsOfSnoc(s.events, Event(a.task, Emitted(a.move)[0]), i);
      }
      MoveExtendsHistory(s.phases[a.task], a.move, s.cancelled);
    }
  }

  lemma StepKeepsOutcomes(s: State, a: Action)
    requires Accounted(s) && Enabled(s, a)
    ensures Accounted(Step(s, a))
  {
    if a.Task? {
      if a.move.Join? && s.phases[a.task].Finished? {
        JoinAddsOutcome(s, a.task, Step(s, a));
      } else {
        NoOutcome(s, a.task, Step(s, a));
      }
    } else {
      assert JoinedOutcomes(Step(s, a)) == JoinedOutcomes(s) && JoinedIds(Step(s, a)) == JoinedIds(s);
    }
  }

  lemma JoinAddsOutcome(s: State, i: nat, s': State)
    requires Accounted(s) && i < |s.ids| && s.phases[i].Finished?
    requires s'.ids == s.ids && s'.phases == s.phases[i := Joined(s.phases[i].result)]
    requires s'.outcomes == s.outcomes + [Outcome(s.ids[i], s.phases[i].result)]
    ensures Accounted(s')
  {
    JoinFillsOutcome(s, i, s');
    JoinFillsId(s, i, s');
    assert IdsOf(s'.outcomes) == IdsOf(s.outcomes) + [s.ids[i]];
  }

  lemma JoinFillsOutcome(s: State, i: nat, s': State)
    requires i < |s.ids| == |s.phases| && s.phases[i].Finished?
    requires s'.ids == s.ids && s'.phases == s.phases[i := Joined(s.phases[i].result)]
    ensures Tally(JoinedOutcomes(s')) == Tally(JoinedOutcomes(s)) + multiset{Outcome(s.ids[i], s.phases[i].result)}
  {
    TallyFill(JoinedOutcomes(s), i, Outcome(s.ids[i], s.phases[i].result));
    assert JoinedOutcomes(s') == JoinedOutcomes(s)[i := Some(Outcome(s.ids[i], s.phases[i].result))];
  }

  lemma JoinFillsId(s: State, i: nat, s': State)
    requires i < |s.ids| == |s.phases| && s.phases[i].Finished?
    requires s'.ids == s.ids && s'.phases == s.phases[i := Joined(s.phases[i].result)]
    ensures Tally(JoinedIds(s')) == Tally(JoinedIds(s)) + multiset{s.ids[i]}
  {
    TallyFill(JoinedIds(s), i, s.ids[i]);
    assert JoinedIds(s') == JoinedIds(s)[i := Some(s.ids[i])];
  }

  lemma NoOutcome(s: State, i: nat, s': State)
    requires Accounted(s) && i < |s.ids| && !s.phases[i].Joined?
    requires s'.ids == s.ids && s'.outcomes == s.outcomes && |s'.phases| == |s.phases| && !s'.phases[i].Joined?
    requires s'.phases == s.phases[i := s'.phases[i]]
    ensures Accounted(s')
  {
    assert JoinedOutcomes(s') == JoinedOutcomes(s);
    assert JoinedIds(s') == JoinedIds(s);
  }

  lemma StepKeepsInv(s: State, a: Action)
    requires Inv(s) && Enabled(s, a)
    ensures Inv(Step(s, a))
  {
    StepKeepsPermits(s, a);
    forall i | 0 <= i < |s.phases|
      ensures Kinds(Step(s, a).events, i) == History(Step(s, a).phases[i])
    {
      StepKeepsHistories(s, a, i);
    }
    StepKeepsOutcomes(s, a);
  }

  /** An interleaving: states and the actions between them. */
  ghost predicate Run(trace: seq<State>, actions: seq<Action>) {
    && |trace| == |actions| + 1
    && forall i :: 0 <= i < |actions| ==> Enabled(trace[i], actions[i]) && trace[i + 1] == Step(trace[i], actions[i])
  }

  lemma {:induction false} RunsKeepInv(trace: seq<State>, actions: seq<Action>, i: nat)
    requires Run(trace, actions) && Inv(trace[0]) && i < |trace|
    ensures Inv(trace[i]) && trace[i].ids == trace[0].ids && trace[i].limit == trace[0].limit
  {
    if i > 0 {
      RunsKeepInv(trace, actions, i - 1);
      StepKeepsInv(trace[i - 1], actions[i - 1]);
    }
  }

  /** What a task will answer with, once that is settled. */
  function ResultOf(p: Phase): Option<ProbeResult> {
    if p.Reported? || p.Finished? || p.Joined? then Some(p.result) else None
  }

  /** One of the actions is the probe's report, or the decision not to probe because of the flag. */
  ghost predicate Reports(actions: seq<Action>, task: nat, result: ProbeResult) {
    Task(task, Report(result)) in actions || (result == Cancelled && Task(task, EmitCancelled) in actions)
  }

  /** One action settles what a task answers exactly if it is its report, and never changes what is settled. */
  lemma StepReports(s: State, a: Action, task: nat)
    requires Enabled(s, a) && task < |s.phases|
    ensures a == Task(task, EmitCancelled) ==>
              ResultOf(s.phases[task]).None? && ResultOf(Step(s, a).phases[task]) == Some(Cancelled)
    ensures forall result :: a == Task(task, Report(result)) ==>
              ResultOf(s.phases[task]).None? && ResultOf(Step(s, a).phases[task]) == Some(result)
    ensures (forall result :: a != Task(task, Report(result))) && a != Task(task, EmitCancelled) ==>
              ResultOf(Step(s, a).phases[task]) == ResultOf(s.phases[task])
  {
  }

  /** In every state of every run a task's answer is what was reported for it, and nothing else. */
  lemma {:induction false} PhasesReport(trace: seq<State>, actions: seq<Action>, i: nat, task: nat)
    requires Run(trace, actions) && i < |trace| && task < |trace[0].phases|
    requires forall j :: 0 <= j < |trace[0].phases| ==> trace[0].phases[j].Unspawned?
    ensures |trace[i].phases| == |trace[0].phases|
    ensures forall result :: ResultOf(trace[i].phases[task]) == Some(result) <==> Reports(actions[..i], task, result)
  {
    if i > 0 {
      PhasesReport(trace, actions, i - 1, task);
      var a := actions[i - 1];
      assert actions[..i] == actions[..i - 1] + [a];
      assert trace[i - 1 + 1] == Step(trace[i - 1], a);
      StepReports(trace[i - 1], a, task);
      forall result
        ensures Reports(actions[..i], task, result) <==>
                Reports(actions[..i - 1], task, result) || a == Task(task, Report(result)) ||
                (result == Cancelled && a == Task(task, EmitCancelled))
      {
      }
    }
  }

  /** A node is answered with what its probe reported. */
  lemma AnswersAreReports(ids: seq<string>, concurrency: nat, streaming: bool, trace: seq<State>,
                          actions: seq<Action>, i: nat, task: nat, result: ProbeResult)
    requires Run(trace, actions) && trace[0] == Start(ids, concurrency, streaming) && i < |trace| && task < |ids|
    requires Reports(actions[..i], task, result)
    ensures |trace[i].phases| == |ids|
    ensures trace[i].phases[task].Joined? ==> Outcome(ids[task], result) in trace[i].outcomes
  {
    StartInv(ids, concurrency, streaming);
    RunsKeepInv(trace, actions, i);
    PhasesReport(trace, actions, i, task);
    if trace[i].phases[task].Joined? {
      TallyHas(JoinedOutcomes(trace[i]), task);
      assert Outcome(ids[task], result) in multiset(trace[i].outcomes);
    }
  }

  lemma {:induction false} TallyHas<T>(values: seq<Option<T>>, i: nat)
    requires i < |values| && values[i].Some?
    ensures values[i].value in Tally(values)
  {
    if i > 0 {
      TallyHas(values[1..], i - 1);
    }
  }

  /** Only the flag makes a task answer that it was cancelled. */
  ghost predicate CancelledByFlag(s: State) {
    forall i :: 0 <= i < |s.phases| && (s.phases[i].Doomed? || ResultOf(s.phases[i]) == Some(Cancelled)) ==> s.cancelled
  }

  lemma {:induction false} FlagIsTheCause(trace: seq<State>, actions: seq<Action>, i: nat)
    requires Run(trace, actions) && i < |trace| && CancelledByFlag(trace[0]) && !trace[0].cancelled
    ensures CancelledByFlag(trace[i]) && (trace[i].cancelled <==> SetCancel in actions[..i])
  {
    if i > 0 {
      FlagIsTheCause(trace, actions, i - 1);
      assert actions[..i] == actions[..i - 1] + [actions[i - 1]];
      FlagStep(trace[i - 1], actions[i - 1]);
      assert trace[i - 1 + 1] == Step(trace[i - 1], actions[i - 1]);
    }
  }

  lemma FlagStep(s: State, a: Action)
    requires Enabled(s, a) && CancelledByFlag(s)
    ensures CancelledByFlag(Step(s, a)) && (Step(s, a).cancelled <==> s.cancelled || a == SetCancel)
  {
    if a.Task? {
      forall i | 0 <= i < |s.phases| && i != a.task
        ensures Step(s, a).phases[i] == s.phases[i]
      {
      }
    }
  }

  lemma SafeState(s: State, task: nat)
    requires Inv(s) && task < |s.phases|
    ensures Count(s.phases, HoldsPermit) <= s.limit
    ensures Kinds(s.events, task) in
              {[], [ProbeCancelled], [ProbeStarted], [ProbeStarted, ProbeSucceeded], [ProbeStarted, ProbeFailed]}
    ensures ResultOf(s.phases[task]).Some? ==>
              Kinds(s.events, task) ==
              match ResultOf(s.phases[task]).value
              case Cancelled => [ProbeCancelled]
              case Latency(_) => [ProbeStarted, ProbeSucceeded]
              case Error(_) => [ProbeStarted, ProbeFailed]
  {
    assert Kinds(s.events, task) == History(s.phases[task]);
  }

  /** Over all interleavings: the permit bound, and the only event sequences a task can have. */
  lemma SchedulerSafety(ids: seq<string>, concurrency: nat, streaming: bool, trace: seq<State>, actions: seq<Action>,
                        i: nat, task: nat)
    requires Run(trace, actions) && trace[0] == Start(ids, concurrency, streaming) && i < |trace| && task < |ids|
    ensures trace[i].permits + Count(trace[i].phases, HoldsPermit) == Max(1, concurrency)
    ensures |trace[i].phases| == |ids|
    ensures Kinds(trace[i].events, task) in
              {[], [ProbeCancelled], [ProbeStarted], [ProbeStarted, ProbeSucceeded], [ProbeStarted, ProbeFailed]}
    ensures forall result :: Reports(actions[..i], task, result) ==>
              Kinds(trace[i].events, task) ==
              match result
              case Cancelled => [ProbeCancelled]
              case Latency(_) => [ProbeStarted, ProbeSucceeded]
              case Error(_) => [ProbeStarted, ProbeFailed]
  {
    StartInv(ids, concurrency, streaming);
    RunsKeepInv(trace, actions, i);
    SafeState(trace[i], task);
    PhasesReport(trace, actions, i, task);
  }

  lemma CancelledStep(s: State, a: Action)
    requires Inv(s) && Enabled(s, a) && s.cancelled
    ensures Step(s, a).cancelled
    ensures Starts(Step(s, a).events) + Count(Step(s, a).phases, IsCleared) <=
            Starts(s.events) + Count(s.phases, IsCleared)
  {
    if a.Task? {
      CountUpdate(s.phases, IsCleared, a.task, After(s.phases[a.task], a.move, s.cancelled));
      if Emitted(a.move) == [] {
        assert s.events + Tagged(a.task, Emitted(a.move)) == s.events;
      } else {
        StartsOfSnoc(s.events, Event(a.task, Emitted(a.move)[0]));
      }
    }
  }

  /** Starts plus tasks that may still start never grow once the flag is set. */
  lemma {:induction false} StartsAfterCancel(trace: seq<State>, actions: seq<Action>, i: nat, j: nat)
    requires Run(trace, actions) && Inv(trace[0]) && i <= j < |trace| && trace[i].cancelled
    ensures trace[j].cancelled
    ensures Starts(trace[j].events) + Count(trace[j].phases, IsCleared) <=
            Starts(trace[i].events) + Count(trace[i].phases, IsCleared)
  {
    if i < j {
      StartsAfterCancel(trace, actions, i, j - 1);
      RunsKeepInv(trace, actions, j - 1);
      CancelledStep(trace[j - 1], actions[j - 1]);
    }
  }

  /** After cancellation at most max(1, concurrency) further probes start. */
  lemma CancellationBound(ids: seq<string>, concurrency: nat, streaming: bool, trace: seq<State>, actions: seq<Action>,
                          i: nat, j: nat)
    requires Run(trace, actions) && trace[0] == Start(ids, concurrency, streaming)
    requires i <= j < |trace| && trace[i].cancelled
    ensures Starts(trace[j].events) <= Starts(trace[i].events) + Max(1, concurrency)
  {
    StartInv(ids, concurrency, streaming);
    RunsKeepInv(trace, actions, i);
    StartsAfterCancel(trace, actions, i, j);
    CountBelow(trace[i].phases, IsCleared, HoldsPermit);
  }

  function Weight(p: Phase): nat {
    match p
    case Unspawned => 7
    case Waiting => 6
    case Holding => 5
    case Cleared => 4
    case Doomed => 3
    case Probing => 3
    case Reported(_) => 2
    case Finished(_) => 1
    case Panicked => 1
    case _ => 0
  }

  function TotalWeight(phases: seq<Phase>): nat {
    if phases == [] then 0 else Weight(phases[0]) + TotalWeight(phases[1..])
  }

  function Measure(s: State): nat {
    TotalWeight(s.phases) + (if s.cancelled then 0 else 1) + (if s.listening then 1 else 0)
  }

  lemma {:induction false} WeightUpdate(phases: seq<Phase>, i: nat, phase: Phase)
    requires i < |phases|
    ensures TotalWeight(phases[i := phase]) + Weight(phases[i]) == TotalWeight(phases) + Weight(phase)
  {
    if i == 0 {
      assert phases[i := phase][1..] == phases[1..];
    } else {
      WeightUpdate(phases[1..], i - 1, phase);
      assert phases[i := phase][1..] == phases[1..][i - 1 := phase];
    }
  }

  /** Every action, the outside world's included, decreases the measure: no run is infinite. */
  lemma EveryActionDecreases(s: State, a: Action)
    requires Enabled(s, a)
    ensures Measure(Step(s, a)) < Measure(s)
  {
    if a.Task? {
      WeightUpdate(s.phases, a.task, After(s.phases[a.task], a.move, s.cancelled));
    }
  }

  /** The actions of the scheduler and of probes that return; cancelling, hanging up and panicking are excluded. */
  predicate Internal(a: Action) {
    a.Task? && !a.move.Panic?
  }

  /** No deadlock: until every task is joined, some internal action is possible. */
  lemma SomeActionEnabled(s: State) returns (a: Action)
    requires Inv(s) && !Complete(s)
    ensures Internal(a) && Enabled(s, a)
  {
    if i :| 0 <= i < |s.phases| && s.phases[i].Unspawned? && forall j :: 0 <= j < i ==> !s.phases[j].Unspawned? {
      a := Task(i, Spawn);
    } else {
      SpawnedBelow(s, |s.phases|);
      var i :| 0 <= i < |s.phases| && !s.phases[i].Joined? && !s.phases[i].JoinedPanic?;
      match s.phases[i]
      case Holding => a := Task(i, ReadFlag);
      case Cleared => a := Task(i, EmitStarted);
      case Doomed => a := Task(i, EmitCancelled);
      case Probing => a := Task(i, Report(Error("probe failed")));
      case Reported(_) => a := Task(i, Release);
      case Finished(_) => a := Task(i, Join);
      case Panicked => a := Task(i, Join);
      case Waiting => a := UnblockWaiting(s, i);
    }
  }

  /** A waiting task can acquire, or some holder can move. */
  lemma UnblockWaiting(s: State, i: nat) returns (a: Action)
    requires Inv(s) && i < |s.phases| && s.phases[i].Waiting?
    ensures Internal(a) && Enabled(s, a)
  {
    if h :| 0 <= h < |s.phases| && HoldsPermit(s.phases[h]) {
      match s.phases[h]
      case Holding => a := Task(h, ReadFlag);
      case Cleared => a := Task(h, EmitStarted);
      case Doomed => a := Task(h, EmitCancelled);
      case Probing => a := Task(h, Report(Error("probe failed")));
      case Reported(_) => a := Task(h, Release);
    } else {
      CountNone(s.phases, HoldsPermit);
      a := Task(i, Acquire);
    }
  }

  lemma {:induction false} SpawnedBelow(s: State, n: nat)
    requires n <= |s.phases|
    requires forall i :: 0 <= i < |s.phases| && s.phases[i].Unspawned? ==>
             exists j :: 0 <= j < i && s.phases[j].Unspawned?
    ensures forall i :: 0 <= i < n ==> !s.phases[i].Unspawned?
  {
    if n > 0 {
      SpawnedBelow(s, n - 1);
    }
  }

  /** When all tasks are joined and none panicked, exactly the input nodes were answered. */
  lemma CompleteConserves(s: State)
    requires Inv(s) && Complete(s)
    ensures multiset(IdsOf(s.outcomes)) <= multiset(s.ids)
    ensures (forall i :: 0 <= i < |s.phases| ==> s.phases[i].Joined?) ==> multiset(IdsOf(s.outcomes)) == multiset(s.ids)
  {
    TallyBelow(JoinedIds(s), s.ids);
    if forall i :: 0 <= i < |s.phases| ==> s.phases[i].Joined? {
      TallyFull(JoinedIds(s), s.ids);
    }
  }

  lemma {:induction false} TallyBelow<T>(values: seq<Option<T>>, xs: seq<T>)
    requires |values| == |xs| && forall i :: 0 <= i < |xs| ==> values[i].None? || values[i] == Some(xs[i])
    ensures Tally(values) <= multiset(xs)
  {
    if xs != [] {
      TallyBelow(values[1..], xs[1..]);
      MultisetOfHeadAndTail(xs);
    }
  }

  /** Probes return here instead of panicking. */
  predicate Calm(s: State) {
    forall i :: 0 <= i < |s.phases| ==> !s.phases[i].Panicked? && !s.phases[i].JoinedPanic?
  }

  predicate IsPanic(a: Action) {
    a.Task? && a.move.Panic?
  }

  lemma StepStaysCalm(s: State, a: Action)
    requires Enabled(s, a) && !IsPanic(a) && Calm(s)
    ensures Calm(Step(s, a))
  {
    if a.Task? {
      assert !After(s.phases[a.task], a.move, s.cancelled).Panicked?;
      assert !After(s.phases[a.task], a.move, s.cancelled).JoinedPanic?;
    }
  }

  /** Any enabled action but a panic may come next. */
  method Pick(s: State) returns (a: Action)
    requires Inv(s) && !Complete(s)
    ensures Enabled(s, a) && !IsPanic(a)
  {
    ghost var possible := SomeActionEnabled(s);
    assert Enabled(s, possible) && !IsPanic(possible);
    a :| Enabled(s, a) && !IsPanic(a);
  }

  lemma RunOfSnoc(trace: seq<State>, actions: seq<Action>, a: Action)
    requires Run(trace, actions) && Enabled(trace[|actions|], a)
    ensures Run(trace + [Step(trace[|actions|], a)], actions + [a])
  {
    var longer, more := trace + [Step(trace[|actions|], a)], actions + [a];
    forall i | 0 <= i < |more|
      ensures Enabled(longer[i], more[i]) && longer[i + 1] == Step(longer[i], more[i])
    {
      if i < |actions| {
        assert trace[i + 1] == Step(trace[i], actions[i]);
      }
    }
  }

  /** What the tasks of a calm run that has come to its end have answered. */
  ghost function Answers(s: State): (reported: seq<ProbeResult>)
    requires Calm(s) && Complete(s)
    ensures |reported| == |s.phases|
    ensures forall i :: 0 <= i < |reported| ==> ResultOf(s.phases[i]) == Some(reported[i])
  {
    seq(|s.phases|, i requires 0 <= i < |s.phases| => s.phases[i].result)
  }

  /** At the end every task has reported, and the outcomes are those reports, each with its node. */
  lemma AnsweredAll(ids: seq<string>, concurrency: nat, streaming: bool, trace: seq<State>, actions: seq<Action>)
    requires Run(trace, actions) && trace[0] == Start(ids, concurrency, streaming)
    requires Complete(trace[|actions|]) && Calm(trace[|actions|])
    ensures |trace[|actions|].phases| == |ids|
    ensures var reported := Answers(trace[|actions|]);
            && multiset(trace[|actions|].outcomes) == multiset(seq(|ids|, i requires 0 <= i < |ids| =>
                                                        Outcome(ids[i], reported[i])))
            && (forall i, result :: 0 <= i < |ids| ==> (Reports(actions, i, result) <==> result == reported[i]))
            && (forall i :: 0 <= i < |ids| && reported[i] == Cancelled ==> SetCancel in actions)
  {
    StartInv(ids, concurrency, streaming);
    RunsKeepInv(trace, actions, |actions|);
    var s := trace[|actions|];
    var reported := Answers(s);
    TallyFull(JoinedOutcomes(s), seq(|ids|, i requires 0 <= i < |ids| => Outcome(ids[i], reported[i])));
    assert actions[..|actions|] == actions;
    forall i, result | 0 <= i < |ids|
      ensures Reports(actions, i, result) <==> result == reported[i]
    {
      PhasesReport(trace, actions, |actions|, i);
    }
    FlagIsTheCause(trace, actions, |actions|);
  }

  /** A calm run has led here. */
  ghost predicate Reached(ids: seq<string>, concurrency: nat, streaming: bool, trace: seq<State>,
                          actions: seq<Action>, s: State) {
    && Run(trace, actions) && trace[0] == Start(ids, concurrency, streaming) && trace[|actions|] == s
    && Inv(s) && s.ids == ids && Calm(s)
    && (s.listening <==> streaming && HangUp !in actions)
  }

  lemma ReachedStep(ids: seq<string>, concurrency: nat, streaming: bool, trace: seq<State>, actions: seq<Action>,
                    s: State, a: Action)
    requires Reached(ids, concurrency, streaming, trace, actions, s) && Enabled(s, a) && !IsPanic(a)
    ensures Reached(ids, concurrency, streaming, trace + [Step(s, a)], actions + [a], Step(s, a))
  {
    StepKeepsInv(s, a);
    StepStaysCalm(s, a);
    RunOfSnoc(trace, actions, a);
  }

  /**
   Run any interleaving to its end, with cancellation and hang-up at any time. It
   terminates, answers every node once with what its probe reported, or that it was cancelled,
   and streams the answers in returned order. `actions` is what happened.
   */
  method ProbeAll(ids: seq<string>, concurrency: nat, streaming: bool)
    returns (outcomes: seq<Outcome>, stream: seq<Outcome>, hungUp: bool, ghost actions: seq<Action>,
             ghost reported: seq<ProbeResult>)
    ensures multiset(IdsOf(outcomes)) == multiset(ids)
    ensures |reported| == |ids|
    ensures multiset(outcomes) == multiset(seq(|ids|, i requires 0 <= i < |ids| => Outcome(ids[i], reported[i])))
    ensures forall i, result :: 0 <= i < |ids| ==> (Reports(actions, i, result) <==> result == reported[i])
    ensures forall i :: 0 <= i < |ids| && reported[i] == Cancelled ==> SetCancel in actions
    ensures exists trace :: Run(trace, actions) && trace[0] == Start(ids, concurrency, streaming)
    ensures stream <= outcomes
    ensures streaming && !hungUp ==> stream == outcomes
    ensures hungUp <==> !streaming || HangUp in actions
  {
    StartInv(ids, concurrency, streaming);
    var s := Start(ids, concurrency, streaming);
    ghost var trace := [s];
    actions := [];
    while !Complete(s)
      invariant Reached(ids, concurrency, streaming, trace, actions, s)
      decreases Measure(s)
    {
      var a := Pick(s);
      EveryActionDecreases(s, a);
      ReachedStep(ids, concurrency, streaming, trace, actions, s, a);
      s := Step(s, a);
      trace, actions := trace + [s], actions + [a];
    }
    CompleteConserves(s);
    AnsweredAll(ids, concurrency, streaming, trace, actions);
    outcomes, stream, hungUp, reported := s.outcomes, s.stream, !s.listening, Answers(s);
  }
}

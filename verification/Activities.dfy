/** Running an activity until all of its handlers are over: kopf/_core/engines/activities.py. */
module Activities {
  import opened Wrappers
  import opened Execution

  /** Which of the awakened handlers go now. */
  datatype Lifecycle = Lifecycle(plan: (seq<Handler>, States) -> seq<Handler>) {
    /** Some of those given, none of them twice if they were given once, and at least one if there are any. */
    ghost predicate Lawful() {
      forall hs, states ::
        var plan := plan(hs, states);
        && (forall i :: 0 <= i < |plan| ==> plan[i] in hs)
        && (Unique(hs) ==> Unique(plan))
        && (hs != [] ==> plan != [])
    }
  }

  predicate Unique(hs: seq<Handler>) {
    forall i, j :: 0 <= i < j < |hs| ==> hs[i] != hs[j]
  }

  function Attempts(h: Handler, states: States): int {
    if h.id in states then states[h.id].retries else 0
  }

  /** The first of those with the fewest attempts. */
  function Freshest(hs: seq<Handler>, states: States): (h: Handler)
    requires hs != []
    ensures h in hs && forall other :: other in hs ==> Attempts(h, states) <= Attempts(other, states)
  {
    if |hs| == 1 then hs[0]
    else
      var h := Freshest(hs[1..], states);
      assert hs == [hs[0]] + hs[1..];
      if Attempts(hs[0], states) <= Attempts(h, states) then hs[0] else h
  }

  const ALL_AT_ONCE := Lifecycle((hs: seq<Handler>, states: States) => hs)
  const ONE_BY_ONE := Lifecycle((hs: seq<Handler>, states: States) => if hs == [] then [] else hs[..1])
  const ASAP := Lifecycle((hs: seq<Handler>, states: States) => if hs == [] then [] else [Freshest(hs, states)])

  /** The lifecycles of the framework make progress whenever it is possible. */
  lemma LifecyclesAreLawful()
    ensures ALL_AT_ONCE.Lawful() && ONE_BY_ONE.Lawful() && ASAP.Lawful()
  {
    forall hs: seq<Handler>, states: States
      ensures var plan := ASAP.plan(hs, states);
              (forall i :: 0 <= i < |plan| ==> plan[i] in hs) && (Unique(hs) ==> Unique(plan))
                && (hs != [] ==> plan != [])
    {
    }
  }

  /** The world around: what the handler answers in its n-th attempt, and how long anything takes. */
  datatype World = World(answer: (string, int) -> Answer, lag: nat -> nat)

  predicate Distinct(handlers: seq<Handler>) {
    forall i, j :: 0 <= i < j < |handlers| ==> handlers[i].id != handlers[j].id
  }

  predicate Limited(handlers: seq<Handler>) {
    forall i :: 0 <= i < |handlers| ==> handlers[i].retries.Some?
  }

  /** How many times the function can be called. */
  function Calls(h: Handler): nat
    requires h.retries.Some?
  {
    if h.retries.value < 0 then 0 else h.retries.value
  }

  /** How many executions are left to the handler: all its calls, and the one in which it is refused. */
  function Left(h: Handler, states: States): nat
    requires h.retries.Some?
  {
    if h.id !in states || states[h.id].Finished() || states[h.id].retries > Calls(h) then 0
    else Calls(h) + 1 - states[h.id].retries
  }

  function TotalLeft(handlers: seq<Handler>, states: States): nat
    requires Limited(handlers)
  {
    if handlers == [] then 0 else Left(handlers[0], states) + TotalLeft(handlers[1..], states)
  }

  lemma {:induction false} TotalLeftIsLess(handlers: seq<Handler>, states: States, states': States, i: nat)
    requires Limited(handlers) && i < |handlers|
    requires forall j :: 0 <= j < |handlers| ==> Left(handlers[j], states') <= Left(handlers[j], states)
    requires Left(handlers[i], states') < Left(handlers[i], states)
    ensures TotalLeft(handlers, states') < TotalLeft(handlers, states)
    decreases |handlers|
  {
    if i > 0 {
      TotalLeftIsLess(handlers[1..], states, states', i - 1);
    } else {
      TotalLeftIsNotMore(handlers[1..], states, states');
    }
  }

  lemma {:induction false} TotalLeftIsNotMore(handlers: seq<Handler>, states: States, states': States)
    requires Limited(handlers)
    requires forall j :: 0 <= j < |handlers| ==> Left(handlers[j], states') <= Left(handlers[j], states)
    ensures TotalLeft(handlers, states') <= TotalLeft(handlers, states)
    decreases |handlers|
  {
    if handlers != [] { TotalLeftIsNotMore(handlers[1..], states, states'); }
  }

  /** Activities retry after arbitrary errors, unless the handler says otherwise. */
  const DEFAULT_ERRORS := TEMPORARY

  /** The outcome of an execution, whenever it was, if the function answers so when it is called. */
  predicate Plausible(h: Handler, state: HandlerState, answer: Answer, outcome: Outcome, called: bool)
    requires h.retries.Some?
  {
    && (called ==> state.retries < h.retries.value)
    && (outcome.final ==> outcome.delay.None?)
    && (!outcome.final ==> called && outcome.error.Some? && CanBeRetried(h, answer, DEFAULT_ERRORS))
    && (outcome.final && outcome.error.None? <==> called && EndsWell(h, answer, DEFAULT_ERRORS))
    && outcome.result == if called && answer.Success? then answer.result else None
  }

  lemma ExecutedIsPlausible(h: Handler, state: HandlerState, now: int, answer: Answer, later: int)
    requires h.retries.Some?
    ensures Plausible(h, state, answer, Executed(h, state, now, answer, later, {}, DEFAULT_ERRORS),
                      IsCalled(h, state, now))
  {
    AnswersDecide(h, state, now, answer, later, {}, DEFAULT_ERRORS, later, "");
  }

  function Count(m: map<string, nat>, id: string): nat {
    if id in m then m[id] else 0
  }

  /** The handler is executed no more than its limit and once again, and its function is called no more than the
      limit: in each execution, except for the one in which it is refused, which is a failure. */
  predicate Within(h: Handler, states: States, calls: map<string, nat>)
    requires h.retries.Some?
  {
    && h.id in states && states[h.id].active && !(states[h.id].success && states[h.id].failure)
    && 0 <= states[h.id].retries <= Calls(h) + 1
    && (states[h.id].retries == Calls(h) + 1 ==> states[h.id].Finished())
    && states[h.id].retries - 1 <= Count(calls, h.id) <= states[h.id].retries && Count(calls, h.id) <= Calls(h)
    && (!states[h.id].failure ==> Count(calls, h.id) == states[h.id].retries)
  }

  function Ids(handlers: seq<Handler>): set<string> {
    set h | h in handlers :: h.id
  }

  predicate Sane(handlers: seq<Handler>, states: States, calls: map<string, nat>) {
    && states.Keys == Ids(handlers)
    && forall h :: h in handlers ==> h.retries.Some? && Within(h, states, calls)
  }

  function AwakenedOf(handlers: seq<Handler>, states: States, now: int): (todo: seq<Handler>)
    requires forall h :: h in handlers ==> h.id in states
    ensures forall h :: h in todo <==> h in handlers && states[h.id].Awakened(now)
  {
    if handlers == [] then []
    else
      var last := handlers[|handlers| - 1];
      assert handlers == handlers[..|handlers| - 1] + [last];
      AwakenedOf(handlers[..|handlers| - 1], states, now) + if states[last.id].Awakened(now) then [last] else []
  }

  lemma {:induction false} NobodyGoesTwice(handlers: seq<Handler>, states: States, now: int)
    requires Unique(handlers) && forall h :: h in handlers ==> h.id in states
    ensures Unique(AwakenedOf(handlers, states, now))
    decreases |handlers|
  {
    if handlers != [] {
      var n := |handlers| - 1;
      NobodyGoesTwice(handlers[..n], states, now);
      assert handlers[n] !in handlers[..n];
    }
  }

  method Awakened(handlers: seq<Handler>, states: States, now: int) returns (todo: seq<Handler>)
    requires forall h :: h in handlers ==> h.id in states
    ensures todo == AwakenedOf(handlers, states, now)
  {
    todo := [];
    var i := 0;
    while i < |handlers|
      invariant 0 <= i <= |handlers|
      invariant todo == AwakenedOf(handlers[..i], states, now)
    {
      assert handlers[..i + 1][..i] == handlers[..i];
      if states[handlers[i].id].Awakened(now) {
        todo := todo + [handlers[i]];
      }
      i := i + 1;
    }
    assert handlers[..i] == handlers;
  }

  function WithOutcomes(states: States, outcomes: map<string, Outcome>, now: int): States {
    map id | id in states ::
      if id in outcomes then WithOutcome(states[id], outcomes[id], now, "") else states[id]
  }

  /** Only those that were executed have changed, and their pauses are counted from that moment. */
  lemma OutcomesAreMerged(states: States, outcomes: map<string, Outcome>, now: int, id: string, at: int)
    requires id in states && now <= at
    ensures var state := WithOutcomes(states, outcomes, now)[id];
            if id !in outcomes then state == states[id]
            else
              var outcome := outcomes[id];
              && state.retries == states[id].retries + 1
              && (state.Finished() <==> outcome.final) && (state.failure <==> outcome.final && outcome.error.Some?)
              && state.stopped == (if outcome.final then Some(OrElse(states[id].stopped, now)) else states[id].stopped)
              && (!outcome.final ==>
                    (state.Awakened(at) <==> outcome.delay.Some? ==> now + outcome.delay.value <= at))
  {
  }

  function HandlerOf(handlers: seq<Handler>, id: string): (h: Option<Handler>)
    ensures h.Some? ==> h.value in handlers && h.value.id == id
    ensures h.None? ==> forall i :: 0 <= i < |handlers| ==> handlers[i].id != id
  {
    if handlers == [] then None
    else if handlers[0].id == id then Some(handlers[0])
    else HandlerOf(handlers[1..], id)
  }

  /** What an execution of one of the handlers can be. */
  predicate PlausibleFor(
    handlers: seq<Handler>, world: World, id: string, states: States, now: int, outcome: Outcome, called: bool
  ) {
    && id in states && states[id].Awakened(now)
    && HandlerOf(handlers, id).Some? && HandlerOf(handlers, id).value.retries.Some?
    && Plausible(HandlerOf(handlers, id).value, states[id], world.answer(id, states[id].retries), outcome, called)
  }

  predicate Round(
    handlers: seq<Handler>, world: World, states: States, now: int, outcomes: map<string, Outcome>,
    called: set<string>
  ) {
    && called <= outcomes.Keys
    && forall id :: id in outcomes ==> PlausibleFor(handlers, world, id, states, now, outcomes[id], id in called)
  }

  lemma {:induction false} HandlerIsFound(handlers: seq<Handler>, h: Handler)
    requires Distinct(handlers) && h in handlers
    ensures HandlerOf(handlers, h.id) == Some(h)
    decreases |handlers|
  {
    if handlers[0] != h {
      var i :| 0 <= i < |handlers| && handlers[i] == h;
      assert handlers[1..][i - 1] == h;
      HandlerIsFound(handlers[1..], h);
    }
  }

  lemma RoundGrows(
    handlers: seq<Handler>, world: World, states: States, now: int, outcomes: map<string, Outcome>, called: set<string>,
    h: Handler, outcome: Outcome, isCalled: bool
  )
    requires Round(handlers, world, states, now, outcomes, called) && Distinct(handlers)
    requires h in handlers && h.id !in outcomes
    requires h.id in states && states[h.id].Awakened(now) && h.retries.Some?
      && Plausible(h, states[h.id], world.answer(h.id, states[h.id].retries), outcome, isCalled)
    ensures Round(handlers, world, states, now, outcomes[h.id := outcome], if isCalled then called + {h.id} else called)
  {
    HandlerIsFound(handlers, h);
  }

  lemma SomethingToDo(handlers: seq<Handler>, states: States, todo: seq<Handler>, now: int)
    requires states.Keys == Ids(handlers)
    requires forall h :: h in handlers && states[h.id].Awakened(now) ==> h in todo
    ensures (exists id :: id in states && states[id].Awakened(now)) ==> todo != []
  {
    if id :| id in states && states[id].Awakened(now) {
      var h :| h in handlers && h.id == id;
      assert h in todo;
    }
  }

  method ExecuteHandlerOnce(h: Handler, state: HandlerState, answer: Answer, now: int, lag: nat)
    returns (outcome: Outcome, called: bool, later: int)
    requires h.retries.Some?
    ensures Plausible(h, state, answer, outcome, called) && now <= later
    ensures outcome == Executed(h, state, now, answer, later, {}, DEFAULT_ERRORS) && called == IsCalled(h, state, now)
  {
    later := now + lag;
    outcome, called := Executed(h, state, now, answer, later, {}, DEFAULT_ERRORS), IsCalled(h, state, now);
    ExecutedIsPlausible(h, state, now, answer, later);
  }

  /** These handlers are awakened now, and none of them is there twice. */
  predicate CanGo(handlers: seq<Handler>, states: States, plan: seq<Handler>, now: int) {
    && Unique(plan)
    && forall h :: h in plan ==> h in handlers && h.id in states && states[h.id].Awakened(now) && h.retries.Some?
  }

  lemma OneMorePlanned(handlers: seq<Handler>, plan: seq<Handler>, i: nat)
    requires Distinct(handlers) && Unique(plan) && i < |plan| && forall h :: h in plan ==> h in handlers
    ensures plan[i].id !in Ids(plan[..i]) && Ids(plan[..i + 1]) == Ids(plan[..i]) + {plan[i].id}
  {
    assert plan[..i + 1] == plan[..i] + [plan[i]];
    if h :| h in plan[..i] && h.id == plan[i].id {
      assert h in handlers && plan[i] in handlers;
      HandlerIsFound(handlers, h);
      HandlerIsFound(handlers, plan[i]);
    }
  }

  method ExecutePlan(
    handlers: seq<Handler>, states: States, plan: seq<Handler>, world: World, now: int, tick: nat
  ) returns (outcomes: map<string, Outcome>, called: set<string>, later: int, tick': nat)
    requires Distinct(handlers) && CanGo(handlers, states, plan, now)
    ensures Round(handlers, world, states, now, outcomes, called) && now <= later
    ensures outcomes.Keys == Ids(plan)
  {
    outcomes, called, later, tick' := map[], {}, now, tick;
    var i := 0;
    while i < |plan|
      invariant 0 <= i <= |plan| && now <= later
      invariant Round(handlers, world, states, now, outcomes, called)
      invariant outcomes.Keys == Ids(plan[..i])
    {
      var h := plan[i];
      OneMorePlanned(handlers, plan, i);
      var outcome, isCalled;
      outcome, isCalled, later :=
        ExecuteHandlerOnce(h, states[h.id], world.answer(h.id, states[h.id].retries), later, world.lag(tick'));
      RoundGrows(handlers, world, states, now, outcomes, called, h, outcome, isCalled);
      outcomes := outcomes[h.id := outcome];
      called := if isCalled then called + {h.id} else called;
      tick', i := tick' + 1, i + 1;
    }
    assert plan[..i] == plan;
  }

  /** `execute_handlers_once`: those awakened now, as planned by the lifecycle, one after another. */
  method ExecuteHandlersOnce(
    handlers: seq<Handler>, states: States, lifecycle: Lifecycle, world: World, now: int, tick: nat
  ) returns (outcomes: map<string, Outcome>, called: set<string>, later: int, tick': nat)
    requires Distinct(handlers) && states.Keys == Ids(handlers) && lifecycle.Lawful()
    requires forall h :: h in handlers ==> h.retries.Some?
    ensures Round(handlers, world, states, now, outcomes, called) && now <= later
    ensures outcomes.Keys == Ids(lifecycle.plan(AwakenedOf(handlers, states, now), states))
    ensures (exists id :: id in states && states[id].Awakened(now)) ==> outcomes != map[]
  {
    assert Unique(handlers);
    var todo := Awakened(handlers, states, now);
    NobodyGoesTwice(handlers, states, now);
    var plan := lifecycle.plan(todo, states);
    SomethingToDo(handlers, states, todo, now);
    forall h | h in plan ensures h in todo {
    }
    outcomes, called, later, tick' := ExecutePlan(handlers, states, plan, world, now, tick);
    if plan != [] { assert plan[0].id in Ids(plan); }
  }

  // ----- The activity -----

  function Counted(states: States, calls: map<string, nat>, called: set<string>): map<string, nat> {
    map id | id in states :: Count(calls, id) + if id in called then 1 else 0
  }

  /** The function of the handler asked for one more attempt that many times in a row. */
  predicate Retried(h: Handler, world: World, times: int) {
    forall n :: 0 <= n < times ==> CanBeRetried(h, world.answer(h.id, n), DEFAULT_ERRORS)
  }

  function LastAnswer(h: Handler, world: World, state: HandlerState): Answer {
    world.answer(h.id, state.retries - 1)
  }

  /** How the handler has come to where it is: by its first answer that is not to be retried, or by its limits. */
  predicate Explained(h: Handler, world: World, states: States, calls: map<string, nat>) {
    && h.id in states
    && var state := states[h.id];
       && (!state.Finished() ==> Retried(h, world, state.retries))
       && (state.Finished() ==> state.retries > 0 && Retried(h, world, state.retries - 1))
       && (state.success ==> EndsWell(h, LastAnswer(h, world, state), DEFAULT_ERRORS))
       && (state.failure ==>
             Count(calls, h.id) < state.retries || !EndsWell(h, LastAnswer(h, world, state), DEFAULT_ERRORS))
  }

  /** What is known of the handlers that are over: the latest outcomes are their final ones. */
  predicate Told(h: Handler, world: World, states: States, outcomes: map<string, Outcome>) {
    && h.id in states
    && var state := states[h.id];
       && (state.Finished() ==> h.id in outcomes)
       && (h.id in outcomes ==>
             && (outcomes[h.id].final <==> state.Finished())
             && (outcomes[h.id].final && outcomes[h.id].error.Some? <==> state.failure))
       && (state.success ==>
             outcomes[h.id].result
             == var answer := LastAnswer(h, world, state); if answer.Success? then answer.result else None)
  }

  predicate AllTold(
    handlers: seq<Handler>, world: World, states: States, calls: map<string, nat>, outcomes: map<string, Outcome>
  ) {
    && outcomes.Keys <= states.Keys
    && forall h :: h in handlers ==> Explained(h, world, states, calls) && Told(h, world, states, outcomes)
  }

  lemma RoundIsWithin(
    handlers: seq<Handler>, world: World, states: States, calls: map<string, nat>, now: int,
    outcomes: map<string, Outcome>, called: set<string>, later: int, h: Handler
  )
    requires Distinct(handlers) && h in handlers && h.retries.Some? && Within(h, states, calls)
    requires Round(handlers, world, states, now, outcomes, called)
    ensures var states' := WithOutcomes(states, outcomes, later);
            && Within(h, states', Counted(states, calls, called))
            && Left(h, states') + (if h.id in outcomes then 1 else 0) <= Left(h, states)
  {
    HandlerIsFound(handlers, h);
  }

  lemma SanityStays(
    handlers: seq<Handler>, world: World, states: States, calls: map<string, nat>, now: int,
    outcomes: map<string, Outcome>, called: set<string>, later: int
  )
    requires Distinct(handlers) && Sane(handlers, states, calls)
    requires Round(handlers, world, states, now, outcomes, called)
    ensures Sane(handlers, WithOutcomes(states, outcomes, later), Counted(states, calls, called))
  {
    forall h | h in handlers
      ensures Within(h, WithOutcomes(states, outcomes, later), Counted(states, calls, called))
    {
      RoundIsWithin(handlers, world, states, calls, now, outcomes, called, later, h);
    }
  }

  lemma RoundLeavesLess(
    handlers: seq<Handler>, world: World, states: States, calls: map<string, nat>, now: int,
    outcomes: map<string, Outcome>, called: set<string>, later: int
  )
    requires Distinct(handlers) && Limited(handlers) && Sane(handlers, states, calls)
    requires Round(handlers, world, states, now, outcomes, called) && outcomes != map[]
    ensures TotalLeft(handlers, WithOutcomes(states, outcomes, later)) < TotalLeft(handlers, states)
  {
    var states' := WithOutcomes(states, outcomes, later);
    forall j | 0 <= j < |handlers| ensures Left(handlers[j], states') <= Left(handlers[j], states) {
      RoundIsWithin(handlers, world, states, calls, now, outcomes, called, later, handlers[j]);
    }
    var id :| id in outcomes;
    assert PlausibleFor(handlers, world, id, states, now, outcomes[id], id in called);
    var h := HandlerOf(handlers, id).value;
    var i :| 0 <= i < |handlers| && handlers[i] == h;
    RoundIsWithin(handlers, world, states, calls, now, outcomes, called, later, h);
    TotalLeftIsLess(handlers, states, states', i);
  }

  lemma RoundIsSane(
    handlers: seq<Handler>, world: World, states: States, calls: map<string, nat>, now: int,
    outcomes: map<string, Outcome>, called: set<string>, later: int
  )
    requires Distinct(handlers) && Limited(handlers) && Sane(handlers, states, calls)
    requires Round(handlers, world, states, now, outcomes, called) && outcomes != map[]
    ensures var states' := WithOutcomes(states, outcomes, later);
            && Sane(handlers, states', Counted(states, calls, called))
            && TotalLeft(handlers, states') < TotalLeft(handlers, states)
  {
    SanityStays(handlers, world, states, calls, now, outcomes, called, later);
    RoundLeavesLess(handlers, world, states, calls, now, outcomes, called, later);
  }

  lemma RoundIsTold(
    handlers: seq<Handler>, world: World, states: States, calls: map<string, nat>, now: int,
    outcomes: map<string, Outcome>, current: map<string, Outcome>, called: set<string>, later: int, h: Handler
  )
    requires Distinct(handlers) && h in handlers && h.retries.Some? && Within(h, states, calls)
    requires Round(handlers, world, states, now, current, called)
    requires Explained(h, world, states, calls) && Told(h, world, states, outcomes)
    ensures var states' := WithOutcomes(states, current, later);
            && Explained(h, world, states', Counted(states, calls, called))
            && Told(h, world, states', outcomes + current)
  {
    HandlerIsFound(handlers, h);
  }

  lemma AllAreTold(
    handlers: seq<Handler>, world: World, states: States, calls: map<string, nat>, now: int,
    outcomes: map<string, Outcome>, current: map<string, Outcome>, called: set<string>, later: int
  )
    requires Distinct(handlers) && Sane(handlers, states, calls)
    requires Round(handlers, world, states, now, current, called)
    requires AllTold(handlers, world, states, calls, outcomes)
    ensures AllTold(handlers, world, WithOutcomes(states, current, later), Counted(states, calls, called),
                    outcomes + current)
  {
    forall h | h in handlers
      ensures var states' := WithOutcomes(states, current, later);
              && Explained(h, world, states', Counted(states, calls, called))
              && Told(h, world, states', outcomes + current)
    {
      RoundIsTold(handlers, world, states, calls, now, outcomes, current, called, later, h);
    }
  }

  /** The results are those of the last answers, if there are any. */
  predicate ResultsAreOf(handlers: seq<Handler>, world: World, states: States, results: map<string, string>) {
    && results.Keys <= states.Keys
    && forall h :: h in handlers && h.id in states ==>
         var answer := LastAnswer(h, world, states[h.id]);
         && (h.id in results <==> answer.Success? && answer.result.Some?)
         && (h.id in results ==> results[h.id] == answer.result.value)
  }

  /** `run_activity`. It ends; each function is called no more than it is allowed, until its first answer that is not
      to be retried; every round executes something; it raises exactly if some of the handlers have finally failed;
      or else all the last answers are good ones, and the results are exactly theirs. */
  method RunActivity(handlers: seq<Handler>, lifecycle: Lifecycle, world: World, start: int)
    returns (raised: bool, results: map<string, string>, states: States, calls: map<string, nat>, rounds: nat)
    requires Distinct(handlers) && Limited(handlers) && lifecycle.Lawful()
    ensures Done(states) && Sane(handlers, states, calls)
    ensures rounds <= TotalLeft(handlers, WithHandlers(map[], handlers, start, None))
    ensures forall h :: h in handlers ==> Explained(h, world, states, calls)
    ensures raised <==> exists id :: id in states && states[id].failure
    ensures if raised then results == map[]
            else && ResultsAreOf(handlers, world, states, results)
                 && forall h :: h in handlers ==> EndsWell(h, LastAnswer(h, world, states[h.id]), DEFAULT_ERRORS)
  {
    var now, tick := start, 0;
    states := WithHandlers(map[], handlers, now, None);
    ghost var total := TotalLeft(handlers, states);
    var outcomes: map<string, Outcome> := map[];
    calls, rounds := map[], 0;
    StartIsSane(handlers, world, now);
    while !Done(states)
      invariant Sane(handlers, states, calls) && AllTold(handlers, world, states, calls, outcomes)
      invariant Done(states) || SomeAwakened(states, now)
      invariant rounds + TotalLeft(handlers, states) <= total
      decreases TotalLeft(handlers, states)
    {
      var current, called;
      ghost var before := now;
      current, called, now, tick := ExecuteHandlersOnce(handlers, states, lifecycle, world, now, tick);
      RoundIsSane(handlers, world, states, calls, before, current, called, now);
      AllAreTold(handlers, world, states, calls, before, outcomes, current, called, now);
      outcomes := outcomes + current;
      calls := Counted(states, calls, called);
      states := WithOutcomes(states, current, now);
      now, tick := Sleep(states, world, now, tick);
      rounds := rounds + 1;
    }
    raised := exists id :: id in outcomes && outcomes[id].error.Some?;
    results := if raised then map[]
               else map id | id in outcomes && outcomes[id].result.Some? :: outcomes[id].result.value;
    AllAreOver(handlers, world, states, calls, outcomes);
  }

  /** At the end, all the latest outcomes are final. */
  lemma AllAreOver(
    handlers: seq<Handler>, world: World, states: States, calls: map<string, nat>, outcomes: map<string, Outcome>
  )
    requires Sane(handlers, states, calls) && AllTold(handlers, world, states, calls, outcomes) && Done(states)
    ensures outcomes.Keys == states.Keys
    ensures forall h :: h in handlers ==> states[h.id].Finished() && outcomes[h.id].final
    ensures forall id :: id in states ==> (outcomes[id].error.Some? <==> states[id].failure)
  {
    forall id | id in states
      ensures id in outcomes && states[id].Finished() && outcomes[id].final
              && (outcomes[id].error.Some? <==> states[id].failure)
    {
      var h :| h in handlers && h.id == id;
      assert Within(h, states, calls);
      assert Told(h, world, states, outcomes);
    }
  }

  predicate SomeAwakened(states: States, now: int) { exists id :: id in states && states[id].Awakened(now) }

  /** Until the nearest of the delayed handlers, or not at all if everything is done. */
  method Sleep(states: States, world: World, now: int, tick: nat) returns (later: int, tick': nat)
    ensures Done(states) || SomeAwakened(states, later)
    ensures now <= later
  {
    var delay := MinimalDelay(states, now);
    later, tick' := now, tick;
    if delay.Some? {
      later, tick' := now + delay.value + world.lag(tick), tick + 1;
      var woken := DelayWakesUp(states, now, delay.value, later);
    }
  }

  lemma StartIsSane(handlers: seq<Handler>, world: World, now: int)
    requires Distinct(handlers) && Limited(handlers)
    ensures var states := WithHandlers(map[], handlers, now, None);
            && Sane(handlers, states, map[]) && AllTold(handlers, world, states, map[], map[])
            && (Done(states) || SomeAwakened(states, now))
  {
    var states := WithHandlers(map[], handlers, now, None);
    assert states.Keys == Ids(handlers);
    if handlers != [] {
      assert handlers[0].id in states && states[handlers[0].id].Awakened(now);
    }
  }
}

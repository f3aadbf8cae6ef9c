/** One execution of one handler, and what it does to the state of the handler:
    kopf/_core/actions/execution.py and kopf/_core/actions/progression.py. The time is in microseconds. */
module Execution {
  import opened Wrappers

  datatype ErrorsMode = IGNORED | TEMPORARY | PERMANENT

  const DEFAULT_RETRY_DELAY := 60_000_000

  datatype Handler = Handler(
    id: string, errors: Option<ErrorsMode>, timeout: Option<int>, retries: Option<int>, backoff: Option<int>
  )

  /** How a function of a handler ends. */
  datatype Answer =
    | Success(result: Option<string>)
    | ChildrenRetry(pause: Option<int>)
    | TemporaryError(pause: Option<int>)
    | PermanentError
    | ArbitraryError

  datatype Error = TimedOut | OutOfRetries | Raised(answer: Answer)

  datatype Outcome = Outcome(final: bool, error: Option<Error>, delay: Option<int>, result: Option<string>,
    subrefs: set<string>)

  datatype HandlerState = HandlerState(
    active: bool, started: int, stopped: Option<int>, delayed: Option<int>, purpose: Option<string>,
    retries: int, success: bool, failure: bool, message: Option<string>, subrefs: set<string>
  ) {
    predicate Finished() { success || failure }

    predicate Sleeping(now: int) { !Finished() && delayed.Some? && now < delayed.value }

    predicate Awakened(now: int) { !Finished() && !Sleeping(now) }
  }

  function FromScratch(now: int, purpose: Option<string>): HandlerState {
    HandlerState(true, now, None, None, purpose, 0, false, false, None, {})
  }

  /** The strict checks before the call. */
  function Refusal(h: Handler, state: HandlerState, now: int): Option<Error> {
    if h.timeout.Some? && h.timeout.value <= now - state.started then Some(TimedOut)
    else if h.retries.Some? && h.retries.value <= state.retries then Some(OutOfRetries)
    else None
  }

  /** The same checks as if it is already the next time. */
  function Lookahead(h: Handler, state: HandlerState, now: int, pause: int): Option<Error> {
    if h.timeout.Some? && h.timeout.value <= now - state.started + pause then Some(TimedOut)
    else if h.retries.Some? && h.retries.value <= state.retries + 1 then Some(OutOfRetries)
    else None
  }

  function OrElse<T>(o: Option<T>, default: T): T {
    if o.Some? then o.value else default
  }

  /** `execute_handler_once`: `now` is before the call, `later` is after it; `answer` is what the function would do. */
  function Executed(
    h: Handler, state: HandlerState, now: int, answer: Answer, later: int, subrefs: set<string>,
    defaultErrors: ErrorsMode
  ): Outcome {
    var refusal := Refusal(h, state, now);
    var backoff := OrElse(h.backoff, DEFAULT_RETRY_DELAY);
    if refusal.Some? then Outcome(true, refusal, None, None, {})
    else match answer
         case Success(result) => Outcome(true, None, None, result, subrefs)
         case ChildrenRetry(pause) => Outcome(false, Some(Raised(answer)), pause, None, subrefs)
         case TemporaryError(pause) =>
           var error := Lookahead(h, state, later, OrElse(pause, 0));
           if error.Some? then Outcome(true, error, None, None, subrefs)
           else Outcome(false, Some(Raised(answer)), pause, None, subrefs)
         case PermanentError => Outcome(true, Some(Raised(answer)), None, None, subrefs)
         case ArbitraryError =>
           match OrElse(h.errors, defaultErrors)
           case IGNORED => Outcome(true, None, None, None, subrefs)
           case PERMANENT => Outcome(true, Some(Raised(answer)), None, None, subrefs)
           case TEMPORARY =>
             var error := Lookahead(h, state, later, backoff);
             if error.Some? then Outcome(true, error, None, None, subrefs)
             else Outcome(false, Some(Raised(answer)), Some(backoff), None, subrefs)
  }

  function WithOutcome(state: HandlerState, outcome: Outcome, now: int, text: string): HandlerState {
    state.(
      stopped := if state.stopped.Some? then state.stopped else if outcome.final then Some(now) else None,
      delayed := if outcome.delay.Some? then Some(now + outcome.delay.value) else None,
      success := outcome.final && outcome.error.None?,
      failure := outcome.final && outcome.error.Some?,
      retries := state.retries + 1,
      message := if outcome.error.Some? then Some(text) else None,
      subrefs := state.subrefs + outcome.subrefs)
  }

  /** The function is called only within the limits. */
  predicate IsCalled(h: Handler, state: HandlerState, now: int) { Refusal(h, state, now).None? }

  /** Looking ahead is never a false alarm: the next attempt would be refused anyway, whenever it comes after the pause,
      and for the same reason or for an even stronger one. */
  lemma LookaheadIsNoFalseAlarm(
    h: Handler, state: HandlerState, now: int, answer: Answer, later: int, subrefs: set<string>, mode: ErrorsMode,
    text: string, moment: int, attempt: int
  )
    requires Refusal(h, state, now).None? && now <= later <= moment
    requires answer.TemporaryError? || (answer.ArbitraryError? && OrElse(h.errors, mode) == TEMPORARY)
    requires Executed(h, state, now, answer, later, subrefs, mode).final
    requires attempt >= moment
      + (if answer.TemporaryError? then OrElse(answer.pause, 0) else OrElse(h.backoff, DEFAULT_RETRY_DELAY))
    ensures var outcome := Executed(h, state, now, answer, later, subrefs, mode);
            var state' := WithOutcome(state, outcome, moment, text);
            state'.failure && Refusal(h, state', attempt).Some?
  {
  }

  /** The pause after an error that is not final by itself. */
  function PauseOf(h: Handler, answer: Answer): int {
    match answer
    case TemporaryError(pause) => OrElse(pause, 0)
    case ChildrenRetry(pause) => OrElse(pause, 0)
    case _ => OrElse(h.backoff, DEFAULT_RETRY_DELAY)
  }

  /** Looking ahead is exact: the handler is stopped after an error if and only if its next attempt would be refused
      even when it comes right after the pause. */
  lemma LookaheadExactly(
    h: Handler, state: HandlerState, now: int, answer: Answer, later: int, subrefs: set<string>, mode: ErrorsMode,
    text: string
  )
    requires Refusal(h, state, now).None?
    requires answer.TemporaryError? || (answer.ArbitraryError? && OrElse(h.errors, mode) == TEMPORARY)
    ensures var outcome := Executed(h, state, now, answer, later, subrefs, mode);
            var state' := WithOutcome(state, outcome, later, text);
            && (outcome.final <==> Refusal(h, state', later + PauseOf(h, answer)).Some?)
            && (outcome.final ==> outcome.error == Refusal(h, state', later + PauseOf(h, answer)))
            && (!outcome.final ==>
                 !state'.Finished() && DelayOf(state', later) == if PauseOf(h, answer) > 0 then PauseOf(h, answer)
                   else 0)
  {
  }

  /** These answers end the handler with a success. */
  predicate EndsWell(h: Handler, answer: Answer, mode: ErrorsMode) {
    answer.Success? || (answer.ArbitraryError? && OrElse(h.errors, mode) == IGNORED)
  }

  /** After these answers, the handler is retried while its limits allow that. */
  predicate CanBeRetried(h: Handler, answer: Answer, mode: ErrorsMode) {
    || answer.ChildrenRetry?
    || answer.TemporaryError?
    || (answer.ArbitraryError? && OrElse(h.errors, mode) == TEMPORARY)
  }

  /** Only the unfinished children do not look at the limits ahead. */
  predicate IsStopped(h: Handler, state: HandlerState, answer: Answer, later: int, mode: ErrorsMode) {
    && CanBeRetried(h, answer, mode) && !answer.ChildrenRetry?
    && Refusal(h, state.(retries := state.retries + 1), later + PauseOf(h, answer)).Some?
  }

  /** What becomes of the handler is decided by the answer of its function, if it is called. */
  lemma AnswersDecide(
    h: Handler, state: HandlerState, now: int, answer: Answer, later: int, subrefs: set<string>, mode: ErrorsMode,
    moment: int, text: string
  )
    ensures var outcome := Executed(h, state, now, answer, later, subrefs, mode);
            var state' := WithOutcome(state, outcome, moment, text);
            var called, stopped := IsCalled(h, state, now), IsStopped(h, state, answer, later, mode);
            && (state'.success <==> called && EndsWell(h, answer, mode))
            && (!state'.Finished() <==> called && CanBeRetried(h, answer, mode) && !stopped)
            && !(state'.success && state'.failure) && (outcome.final <==> state'.Finished())
            && outcome.result == (if called && answer.Success? then answer.result else None)
            && outcome.error
               == (if !called then Refusal(h, state, now)
                   else if EndsWell(h, answer, mode) then None
                   else if stopped then
                     Refusal(h, state.(retries := state.retries + 1), later + PauseOf(h, answer))
                   else Some(Raised(answer)))
            && state'.message == (if outcome.error.Some? then Some(text) else None)
            && state'.subrefs == (if called then state.subrefs + subrefs else state.subrefs)
            && state'.retries == state.retries + 1
  {
  }

  /** The finished handler has nothing to wait for, and remembers its first end; the unfinished one waits for the pause
      that was asked for, or not at all if it was not. */
  lemma PausesAreKept(
    h: Handler, state: HandlerState, now: int, answer: Answer, later: int, subrefs: set<string>, mode: ErrorsMode,
    moment: int, text: string
  )
    ensures var state' := WithOutcome(state, Executed(h, state, now, answer, later, subrefs, mode), moment, text);
            && (state'.Finished() ==>
                  state'.delayed.None? && state'.stopped == Some(OrElse(state.stopped, moment)))
            && (!state'.Finished() ==>
                  && state'.stopped == state.stopped
                  && (state'.delayed.None? <==> !answer.ArbitraryError? && answer.pause.None?)
                  && forall at :: moment <= at ==>
                       (state'.Awakened(at) <==> moment + PauseOf(h, answer) <= at))
            && (state'.active, state'.started, state'.purpose) == (state.active, state.started, state.purpose)
  {
  }

  // ----- Many handlers -----

  type States = map<string, HandlerState>

  function WithHandlers(states: States, handlers: seq<Handler>, now: int, purpose: Option<string>): States {
    var ids := set i | 0 <= i < |handlers| :: handlers[i].id;
    map id | id in states.Keys + ids ::
      if id in states then (if id in ids then states[id].(active := true) else states[id])
        else FromScratch(now, purpose)
  }

  /** Joining of the handlers makes them active, and begins those that were not begun; nothing else changes. */
  lemma HandlersJoin(states: States, handlers: seq<Handler>, now: int, purpose: Option<string>, id: string)
    ensures var joined := WithHandlers(states, handlers, now, purpose);
            var isGiven := exists h :: h in handlers && h.id == id;
            && (id in joined <==> id in states || isGiven)
            && (id in joined ==> (joined[id].active <==> isGiven || (id in states && states[id].active)))
            && (id in states ==> joined[id].(active := states[id].active) == states[id])
            && (id in joined && id !in states ==>
                  && joined[id].Awakened(now) && joined[id].started == now && joined[id].retries == 0
                  && joined[id].purpose == purpose && joined[id].subrefs == {} && joined[id].message.None?)
  {
    if h :| h in handlers && h.id == id {
      var i :| 0 <= i < |handlers| && handlers[i] == h;
    }
  }

  predicate Done(states: States) {
    forall id :: id in states && states[id].active ==> states[id].Finished()
  }

  function DelayOf(state: HandlerState, now: int): int {
    if state.delayed.None? || state.delayed.value <= now then 0 else state.delayed.value - now
  }

  function Delays(states: States, now: int): set<int> {
    set id | id in states && states[id].active && !states[id].Finished() :: DelayOf(states[id], now)
  }

  /** Everything is done exactly when there is nothing to wait for. */
  lemma DoneExactly(states: States, now: int)
    ensures Done(states) <==> Delays(states, now) == {}
  {
    if !Done(states) {
      var id :| id in states && states[id].active && !states[id].Finished();
      assert DelayOf(states[id], now) in Delays(states, now);
    }
  }

  /** The shortest delay, in the same steps as it is done by `min`. */
  method MinimalDelay(states: States, now: int) returns (delay: Option<int>)
    ensures delay.None? <==> Done(states)
    ensures delay.Some? ==> delay.value >= 0 && delay.value in Delays(states, now)
    ensures delay.Some? ==> forall d :: d in Delays(states, now) ==> delay.value <= d
  {
    DoneExactly(states, now);
    delay := None;
    var left := Delays(states, now);
    while left != {}
      invariant left <= Delays(states, now)
      invariant delay.None? <==> left == Delays(states, now)
      invariant delay.Some? ==> delay.value in Delays(states, now)
      invariant delay.Some? ==> forall d :: d in Delays(states, now) && d !in left ==> delay.value <= d
    {
      var d :| d in left;
      if delay.None? || d < delay.value {
        delay := Some(d);
      }
      left := left - {d};
    }
  }

  /** Somebody is awakened after the shortest delay. */
  lemma DelayWakesUp(states: States, now: int, delay: int, later: int) returns (id: string)
    requires delay in Delays(states, now) && now + delay <= later
    ensures id in states && states[id].active && states[id].Awakened(later)
  {
    id :| id in states && states[id].active && !states[id].Finished() && DelayOf(states[id], now) == delay;
  }
}

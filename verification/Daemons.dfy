/** The life of daemons and timers, and their staged termination: kopf/_core/engines/daemons.py,
    with the stoppers of kopf/_cogs/aiokits/aioenums.py. */
module Daemons {
  import opened Wrappers

  datatype StoppingReason =
    | DONE | FILTERS_MISMATCH | RESOURCE_DELETED | OPERATOR_PAUSING | OPERATOR_EXITING
    | DAEMON_SIGNALLED | DAEMON_CANCELLED | DAEMON_ABANDONED

  /** Timers have none of the timings. */
  datatype Handler = Handler(id: string, backoff: Option<int>, timeout: Option<int>, polling: Option<int>)

  /** The reasons are accumulated; the time is of the first of them. */
  datatype Stopper = Stopper(when: Option<int>, reasons: set<StoppingReason>) {
    predicate Valid() { when.None? <==> reasons == {} }

    function Set(reason: StoppingReason, now: int): Stopper {
      Stopper(if when.Some? then when else Some(now), reasons + {reason})
    }
  }

  datatype Daemon = Daemon(handler: Handler, stopper: Stopper, alive: bool, cancels: nat) {
    /** The flag is set, and the daemon is given a moment to exit. */
    function Signal(reason: StoppingReason, now: int, exits: bool): Daemon {
      this.(stopper := stopper.Set(reason, now), alive := alive && !exits)
    }
  }

  /** What happens during one check of one daemon: the time when the flag is set, and whether the daemon exits at once
      on the first and on the second signal. */
  datatype Moment = Moment(time: int, exitsFirst: bool, exitsSecond: bool)

  function OrZero(x: Option<int>): int {
    if x.Some? then x.value else 0
  }

  function Polling(h: Handler, default: int): int {
    if OrZero(h.polling) != 0 then h.polling.value else default
  }

  function Age(stopper: Stopper, now: int): int {
    if stopper.when.Some? then now - stopper.when.value else 0
  }

  /** A check of one daemon, and the delay until the next one, if there will be any. */
  function Checked(d: Daemon, reason: StoppingReason, now: int, m: Moment, polling: int): (Daemon, Option<int>) {
    var h, age := d.handler, Age(d.stopper, now);
    var d1 := if reason in d.stopper.reasons then d else d.Signal(reason, m.time, m.exitsFirst);
    if !d1.alive then (d1, None)
    else if h.backoff.Some? && age < h.backoff.value then
      var d2 := if DAEMON_SIGNALLED in d1.stopper.reasons then d1
        else d1.Signal(DAEMON_SIGNALLED, m.time, m.exitsSecond);
      (d2, if d2.alive then Some(h.backoff.value - age) else None)
    else if h.timeout.Some? && age < h.timeout.value + OrZero(h.backoff) then
      var d2 := if DAEMON_CANCELLED in d1.stopper.reasons then d1
                else d1.Signal(DAEMON_CANCELLED, m.time, m.exitsSecond).(cancels := d1.cancels + 1);
      (d2, if d2.alive then Some(h.timeout.value + OrZero(h.backoff) - age) else None)
    else if h.timeout.Some? then
      (if DAEMON_ABANDONED in d1.stopper.reasons then d1 else d1.Signal(DAEMON_ABANDONED, m.time, false), None)
    else (d1, Some(Polling(h, polling)))
  }

  // ----- The stages -----

  datatype Stage = Signalling | Cancelling | Abandoning | Exiting {
    function Rank(): nat {
      match this
      case Signalling => 0
      case Cancelling => 1
      case Exiting => 1
      case Abandoning => 2
    }
  }

  /** What is to be done to a daemon that was asked to stop that long ago. */
  function StageAt(h: Handler, age: int): Stage {
    if h.backoff.Some? && age < h.backoff.value then Signalling
    else if h.timeout.None? then Exiting
    else if age < h.timeout.value + OrZero(h.backoff) then Cancelling
    else Abandoning
  }

  predicate IsAbandoned(d: Daemon, now: int) {
    StageAt(d.handler, Age(d.stopper, now)) == Abandoning
  }

  /** No next check exactly if the daemon has exited, or is given up. */
  lemma NoDelayExactly(d: Daemon, reason: StoppingReason, now: int, m: Moment, polling: int)
    ensures var (d', delay) := Checked(d, reason, now, m, polling);
            delay.None? <==> !d'.alive || IsAbandoned(d, now)
  {
  }

  /** The delay is up to the very moment of the next stage, and never in the past; or for the polling. */
  lemma DelayLeadsToNextStage(d: Daemon, reason: StoppingReason, now: int, m: Moment, polling: int)
    requires Checked(d, reason, now, m, polling).1.Some?
    ensures var (d', delay) := Checked(d, reason, now, m, polling);
            var h, age := d.handler, Age(d.stopper, now);
            && d'.alive && StageAt(h, age) != Abandoning && (d.stopper.when.Some? ==> d'.stopper.when == d.stopper.when)
            && if StageAt(h, age) == Exiting then
                 delay.value == if h.polling.Some? && h.polling.value != 0 then h.polling.value else polling
               else && delay.value > 0 && StageAt(h, age + delay.value) != StageAt(h, age)
                    && forall at :: age <= at < age + delay.value ==> StageAt(h, at) == StageAt(h, age)
  {
  }

  /** The flag of the stage, if there is any. */
  function FlagOf(stage: Stage): set<StoppingReason> {
    match stage
    case Signalling => {DAEMON_SIGNALLED}
    case Cancelling => {DAEMON_CANCELLED}
    case Abandoning => {DAEMON_ABANDONED}
    case Exiting => {}
  }

  /** The demanded flag is always set; the flag of the stage is set if the daemon has not exited at once; the daemon can
      exit only when some of the flags is new for it, and an abandoned one is not even waited for. */
  lemma FlagsAreSet(d: Daemon, reason: StoppingReason, now: int, m: Moment, polling: int)
    requires IsDemand(reason) && d.stopper.Valid()
    ensures var d' := Checked(d, reason, now, m, polling).0;
            var stage := StageAt(d.handler, Age(d.stopper, now));
            var stays := d.alive && (reason in d.stopper.reasons || !m.exitsFirst);
            && d'.stopper.reasons == d.stopper.reasons + {reason} + (if stays then FlagOf(stage) else {})
            && d'.stopper.when == (if d.stopper.when.Some? then d.stopper.when else Some(m.time))
            && (d'.alive <==>
                  stays && (stage == Abandoning || FlagOf(stage) <= d.stopper.reasons || !m.exitsSecond))
  {
  }

  /** What all checks keep: it is known when the stopping began, and the cancellation is not repeated. */
  predicate Sound(d: Daemon) {
    d.stopper.Valid() && d.cancels == if DAEMON_CANCELLED in d.stopper.reasons then 1 else 0
  }

  /** One more check, not earlier than the moment when the stopping began. */
  datatype Check = Check(reason: StoppingReason, now: int, m: Moment)

  /** What the others can demand: the object is deleted or mismatches, or the operator pauses or exits. */
  predicate IsDemand(reason: StoppingReason) {
    reason in {FILTERS_MISMATCH, RESOURCE_DELETED, OPERATOR_PAUSING, OPERATOR_EXITING}
  }

  predicate InTime(d: Daemon, c: Check) {
    IsDemand(c.reason) && c.now <= c.m.time && (d.stopper.when.Some? ==> d.stopper.when.value <= c.now)
  }

  lemma CheckKeeps(d: Daemon, c: Check, polling: int)
    requires Sound(d) && InTime(d, c)
    ensures var d' := Checked(d, c.reason, c.now, c.m, polling).0;
            && Sound(d') && d'.handler == d.handler && (d'.alive ==> d.alive) && d.cancels <= d'.cancels
            && d'.stopper.when.Some? && d'.stopper.when.value <= c.m.time
            && (d.stopper.when.Some? ==> d'.stopper.when == d.stopper.when)
            && (d.stopper.when.None? ==> c.now <= d'.stopper.when.value)
            && d.stopper.reasons <= d'.stopper.reasons
  {
  }

  /** The stage in which this check has found the daemon. */
  function StageOf(d: Daemon, c: Check): Stage { StageAt(d.handler, Age(d.stopper, c.now)) }

  function After(d: Daemon, checks: seq<Check>, polling: int): Daemon
    decreases |checks|
  {
    if checks == [] then d
    else
      var n := |checks| - 1;
      Checked(After(d, checks[..n], polling), checks[n].reason, checks[n].now, checks[n].m, polling).0
  }

  /** The clock does not go back. */
  predicate InOrder(checks: seq<Check>) {
    && (forall i :: 0 <= i < |checks| ==> IsDemand(checks[i].reason) && checks[i].now <= checks[i].m.time)
    && (forall i, j :: 0 <= i < j < |checks| ==> checks[i].m.time <= checks[j].now)
  }

  function Spawned(h: Handler): Daemon { Daemon(h, Stopper(None, {}), true, 0) }

  /** The time is counted from the first of the checks. */
  lemma {:induction false} ChecksKeep(h: Handler, checks: seq<Check>, polling: int)
    requires InOrder(checks)
    ensures var d := After(Spawned(h), checks, polling);
            && Sound(d) && d.handler == h && (checks == [] ==> d == Spawned(h))
            && (checks != [] ==> d.stopper.when.Some? && checks[0].now <= d.stopper.when.value <= checks[0].m.time)
    decreases |checks|
  {
    if checks != [] {
      var n := |checks| - 1;
      ChecksKeep(h, checks[..n], polling);
      if n > 0 { assert checks[..n][0] == checks[0]; }
      CheckKeeps(After(Spawned(h), checks[..n], polling), checks[n], polling);
    }
  }

  lemma {:induction false} MomentStays(h: Handler, checks: seq<Check>, i: nat, polling: int)
    requires InOrder(checks) && 0 < i <= |checks|
    ensures After(Spawned(h), checks, polling).stopper.when == After(Spawned(h), checks[..i], polling).stopper.when
    decreases |checks|
  {
    var n := |checks| - 1;
    if i <= n {
      ChecksKeep(h, checks[..n], polling);
      assert checks[..n][0] == checks[0];
      CheckKeeps(After(Spawned(h), checks[..n], polling), checks[n], polling);
      MomentStays(h, checks[..n], i, polling);
      assert checks[..n][..i] == checks[..i];
    } else {
      assert checks[..i] == checks;
    }
  }

  /** The stages never go back, however many checks there are, and for whatever reasons. */
  lemma StagesGoForward(h: Handler, checks: seq<Check>, i: nat, j: nat, polling: int)
    requires InOrder(checks) && i < j < |checks|
    ensures StageOf(After(Spawned(h), checks[..i], polling), checks[i]).Rank()
            <= StageOf(After(Spawned(h), checks[..j], polling), checks[j]).Rank()
  {
    ChecksKeep(h, checks[..i], polling);
    ChecksKeep(h, checks[..j], polling);
    assert checks[..j][0] == checks[0];
    assert checks[i].m.time <= checks[j].now && checks[0].m.time <= checks[j].now;
    if i > 0 {
      MomentStays(h, checks[..j], i, polling);
      assert checks[..j][..i] == checks[..i];
    }
  }

  /** The check finds the daemon alive in the time that is given to it for the cancellation. */
  predicate FindsCancellable(d: Daemon, c: Check) {
    StageOf(d, c) == Cancelling && d.alive && (c.reason in d.stopper.reasons || !c.m.exitsFirst)
  }

  predicate FoundCancellable(h: Handler, checks: seq<Check>, polling: int) {
    exists i :: 0 <= i < |checks| && FoundAt(h, checks[..i], checks[i], polling)
  }

  predicate FoundAt(h: Handler, before: seq<Check>, c: Check, polling: int) {
    FindsCancellable(After(Spawned(h), before, polling), c)
  }

  /** Something is found among the elements exactly if it is found before the last one, or in it. */
  lemma FoundBefore<T>(items: seq<T>, n: nat, p: (seq<T>, T) -> bool)
    requires |items| == n + 1
    ensures (exists i :: 0 <= i < |items| && p(items[..i], items[i]))
            <==> (exists i :: 0 <= i < n && p(items[..n][..i], items[..n][i])) || p(items[..n], items[n])
  {
    assert forall i :: 0 <= i < n ==> items[..n][..i] == items[..i] && items[..n][i] == items[i];
  }

  lemma CancelsInTime(d: Daemon, c: Check, polling: int)
    requires Sound(d) && InTime(d, c)
    ensures Checked(d, c.reason, c.now, c.m, polling).0.cancels == if d.cancels == 1 || FindsCancellable(d, c) then 1
      else 0
  {
  }

  lemma CancelledByLast(h: Handler, checks: seq<Check>, n: nat, d: Daemon, polling: int)
    requires |checks| == n + 1 && d == After(Spawned(h), checks[..n], polling)
    requires Sound(d) && InTime(d, checks[n]) && d.cancels == if FoundCancellable(h, checks[..n], polling) then 1 else 0
    ensures After(Spawned(h), checks, polling).cancels == if FoundCancellable(h, checks, polling) then 1 else 0
  {
    CancelsInTime(d, checks[n], polling);
    FoundBefore(checks, n, (before: seq<Check>, c: Check) => FoundAt(h, before, c, polling));
  }

  /** The daemon is cancelled at most once, and exactly if some check has found it alive in time for that. */
  lemma {:induction false} CancelledExactly(h: Handler, checks: seq<Check>, polling: int)
    requires InOrder(checks)
    ensures After(Spawned(h), checks, polling).cancels == if FoundCancellable(h, checks, polling) then 1 else 0
    decreases |checks|
  {
    if checks != [] {
      var n := |checks| - 1;
      CancelledExactly(h, checks[..n], polling);
      ChecksKeep(h, checks[..n], polling);
      if n > 0 { assert checks[..n][0] == checks[0]; }
      CancelledByLast(h, checks, n, After(Spawned(h), checks[..n], polling), polling);
    }
  }

  /** If the checks are rare, a daemon can be given up without ever being cancelled. */
  lemma CanBeAbandonedUncancelled(h: Handler, now: int, polling: int)
    requires h.backoff.Some? && h.backoff.value > 0 && h.timeout.Some? && h.timeout.value >= 0
    ensures var late := now + h.backoff.value + h.timeout.value;
            var checks := [Check(RESOURCE_DELETED, now, Moment(now, false, false)),
                           Check(RESOURCE_DELETED, late, Moment(late, false, false))];
            var d := After(Spawned(h), checks, polling);
            InOrder(checks) && d.alive && d.cancels == 0 && DAEMON_ABANDONED in d.stopper.reasons
  {
    var late := now + h.backoff.value + h.timeout.value;
    var first, second :=
      Check(RESOURCE_DELETED, now, Moment(now, false, false)),
        Check(RESOURCE_DELETED, late, Moment(late, false, false));
    var checks := [first, second];
    assert checks[..1] == [first] && checks[..1][..0] == [];
    assert After(Spawned(h), checks[..1], polling) == Checked(Spawned(h), first.reason, first.now, first.m, polling).0;
  }

  // ----- The life cycle -----

  /** A runner of one daemon of the object; it is known if it was asked to stop. */
  datatype Runner = Runner(id: string, asked: bool)

  /** `running` is by the handler, `runners` are all the tasks that are alive; those over unasked are stopped
      forever. */
  datatype Memory = Memory(next: nat, running: map<string, nat>, runners: map<nat, Runner>, foreverStopped: set<string>)

  const NOTHING := Memory(0, map[], map[], {})

  /** Spawning is asked for several handlers, those that are stopped forever are excluded by the caller. */
  datatype Step = Spawn(ids: seq<string>) | Ask(asked: set<string>) | Exit(task: nat)

  predicate Enabled(m: Memory, step: Step) {
    match step
    case Spawn(ids) => forall i :: 0 <= i < |ids| ==> ids[i] !in m.foreverStopped
    case Ask(_) => true
    case Exit(t) => t in m.runners
  }

  function SpawnedOne(m: Memory, id: string): Memory {
    if id in m.running then m
    else m.(next := m.next + 1, running := m.running[id := m.next], runners := m.runners[m.next := Runner(id, false)])
  }

  function SpawnedAll(m: Memory, ids: seq<string>): Memory
    decreases |ids|
  {
    if ids == [] then m else SpawnedOne(SpawnedAll(m, ids[..|ids| - 1]), ids[|ids| - 1])
  }

  /** The runner removes whatever is known under its id. */
  function Exited(m: Memory, t: nat): Memory
    requires t in m.runners
  {
    var runner := m.runners[t];
    m.(running := m.running - {runner.id}, runners := m.runners - {t},
       foreverStopped := if runner.asked then m.foreverStopped else m.foreverStopped + {runner.id})
  }

  function Next(m: Memory, step: Step): Memory
    requires Enabled(m, step)
  {
    match step
    case Spawn(ids) => SpawnedAll(m, ids)
    case Ask(ids) =>
      m.(runners := map t | t in m.runners ::
           if m.runners[t].id in ids then m.runners[t].(asked := true) else m.runners[t])
    case Exit(t) => Exited(m, t)
  }

  predicate Inv(m: Memory) {
    && (forall t :: t in m.runners ==> t < m.next && m.runners[t].id in m.running && m.running[m.runners[t].id] == t)
    && (forall id :: id in m.running ==> m.running[id] in m.runners && m.runners[m.running[id]].id == id)
    && (forall id :: id in m.foreverStopped ==> id !in m.running)
  }

  lemma SpawningOneKeeps(m: Memory, id: string)
    requires Inv(m) && id !in m.foreverStopped
    ensures Inv(SpawnedOne(m, id)) && SpawnedOne(m, id).foreverStopped == m.foreverStopped
    ensures SpawnedOne(m, id).running.Keys == m.running.Keys + {id}
    ensures forall t :: t in m.runners ==>
              t in SpawnedOne(m, id).runners && SpawnedOne(m, id).runners[t] == m.runners[t]
  {
  }

  lemma {:induction false} SpawningKeeps(m: Memory, ids: seq<string>)
    requires Inv(m) && forall i :: 0 <= i < |ids| ==> ids[i] !in m.foreverStopped
    ensures Inv(SpawnedAll(m, ids)) && SpawnedAll(m, ids).foreverStopped == m.foreverStopped
    ensures forall id :: id in SpawnedAll(m, ids).running <==> id in m.running || id in ids
    ensures forall t :: t in m.runners ==>
      t in SpawnedAll(m, ids).runners && SpawnedAll(m, ids).runners[t] == m.runners[t]
    decreases |ids|
  {
    if ids != [] {
      var most, last := ids[..|ids| - 1], ids[|ids| - 1];
      SpawningKeeps(m, most);
      assert ids == most + [last];
      SpawningOneKeeps(SpawnedAll(m, most), last);
    }
  }

  lemma StepKeeps(m: Memory, step: Step)
    requires Inv(m) && Enabled(m, step)
    ensures Inv(Next(m, step)) && m.foreverStopped <= Next(m, step).foreverStopped
  {
    if step.Spawn? { SpawningKeeps(m, step.ids); }
  }

  ghost predicate Leads(m0: Memory, steps: seq<Step>, m: Memory)
    decreases |steps|
  {
    if steps == [] then m == m0
    else Enabled(m0, steps[0]) && Leads(Next(m0, steps[0]), steps[1..], m)
  }

  lemma {:induction false} Always(m0: Memory, steps: seq<Step>, m: Memory)
    requires Inv(m0) && Leads(m0, steps, m)
    ensures Inv(m) && m0.foreverStopped <= m.foreverStopped
    decreases |steps|
  {
    if steps != [] {
      StepKeeps(m0, steps[0]);
      Always(Next(m0, steps[0]), steps[1..], m);
    }
  }

  /** There are never two runners of the same daemon of the object. */
  lemma OneRunnerPerHandler(steps: seq<Step>, m: Memory, t: nat, u: nat)
    requires Leads(NOTHING, steps, m) && t in m.runners && u in m.runners && m.runners[t].id == m.runners[u].id
    ensures t == u
  {
    Always(NOTHING, steps, m);
  }

  /** A daemon that has exited on its own is never run again. */
  lemma NeverRespawned(steps: seq<Step>, m: Memory, t: nat, more: seq<Step>, m': Memory, u: nat)
    requires Leads(NOTHING, steps, m) && t in m.runners && !m.runners[t].asked
    requires Leads(Next(m, Exit(t)), more, m') && u in m'.runners
    ensures m'.runners[u].id != m.runners[t].id
  {
    Always(NOTHING, steps, m);
    StepKeeps(m, Exit(t));
    Always(Next(m, Exit(t)), more, m');
  }

  /** A daemon that was asked to exit is free to be spawned again. */
  lemma AskedCanBeRespawned(steps: seq<Step>, m: Memory, t: nat)
    requires Leads(NOTHING, steps, m) && t in m.runners && m.runners[t].asked
    ensures var id, m' := m.runners[t].id, Exited(m, t);
            Enabled(m', Spawn([id])) && id in Next(m', Spawn([id])).running
  {
    Always(NOTHING, steps, m);
    SpawningKeeps(Exited(m, t), [m.runners[t].id]);
  }

  // ----- The daemons of one object -----

  function Ids(handlers: seq<Handler>): seq<string> {
    seq(|handlers|, i requires 0 <= i < |handlers| => handlers[i].id)
  }

  lemma SpawnedNext(m: Memory, handlers: seq<Handler>, h: Handler)
    ensures SpawnedAll(m, Ids(handlers + [h])) == SpawnedOne(SpawnedAll(m, Ids(handlers)), h.id)
  {
    var ids := Ids(handlers + [h]);
    assert ids[..|ids| - 1] == Ids(handlers);
  }

  /** The daemons that were there are untouched; those of the handlers are there; there are no others. */
  ghost predicate Added(handlers: seq<Handler>, before: map<string, Daemon>, after: map<string, Daemon>) {
    && (forall id :: id in before ==> id in after && after[id] == before[id])
    && (forall h :: h in handlers ==> h.id in after)
    && (forall id :: id in after && id !in before ==>
         exists h :: h in handlers && h.id == id && after[id] == Spawned(h))
  }

  lemma AddedOne(handlers: seq<Handler>, before: map<string, Daemon>, after: map<string, Daemon>, h: Handler)
    requires Added(handlers, before, after)
    ensures Added(handlers + [h], before, if h.id in after then after else after[h.id := Spawned(h)])
  {
    var after' := if h.id in after then after else after[h.id := Spawned(h)];
    forall id | id in after' && id !in before
      ensures exists x :: x in handlers + [h] && x.id == id && after'[id] == Spawned(x) {
      if id in after {
        var x :| x in handlers && x.id == id && after[id] == Spawned(x);
        assert x in handlers + [h];
      } else {
        assert h in handlers + [h];
      }
    }
  }

  function DelayFor(d: Daemon, reason: StoppingReason, now: int, m: Moment, polling: int): Option<int> {
    Checked(d, reason, now, m, polling).1
  }

  /** These are the delays of all those checks, and no others. */
  ghost predicate IsOfChecks(
    delays: seq<int>, daemons: map<string, Daemon>, ids: set<string>, reason: StoppingReason, now: int,
    moments: string -> Moment, polling: int
  )
    requires ids <= daemons.Keys
  {
    forall d :: d in delays <==>
      exists id :: id in ids && DelayFor(daemons[id], reason, now, moments(id), polling) == Some(d)
  }

  /** Each of those daemons was checked once, and no others. */
  predicate AllChecked(
    was: map<string, Daemon>, daemons: map<string, Daemon>, ids: set<string>, reason: StoppingReason, now: int,
    moments: string -> Moment, polling: int
  ) {
    && daemons.Keys == was.Keys
    && forall id :: id in daemons ==>
         daemons[id] == if id in ids then Checked(was[id], reason, now, moments(id), polling).0 else was[id]
  }

  /** The checks set at least the demanded flag. */
  lemma CheckedAreAsked(
    was: map<string, Daemon>, daemons: map<string, Daemon>, ids: set<string>, reason: StoppingReason, now: int,
    moments: string -> Moment, polling: int
  )
    requires AllChecked(was, daemons, ids, reason, now, moments, polling)
    ensures forall id :: id in daemons && id in ids ==> IsAsked(daemons, id)
  {
    forall id | id in daemons && id in ids ensures IsAsked(daemons, id) {
      assert reason in Checked(was[id], reason, now, moments(id), polling).0.stopper.reasons;
    }
  }

  lemma OneMoreCheck(
    delays: seq<int>, was: map<string, Daemon>, daemons: map<string, Daemon>, checked: set<string>, id: string,
    reason: StoppingReason, now: int, moments: string -> Moment, polling: int
  )
    requires checked <= was.Keys && id in was && id !in checked
    requires AllChecked(was, daemons, checked, reason, now, moments, polling)
    requires IsOfChecks(delays, was, checked, reason, now, moments, polling)
    ensures var (d, delay) := Checked(daemons[id], reason, now, moments(id), polling);
            && AllChecked(was, daemons[id := d], checked + {id}, reason, now, moments, polling)
            && IsOfChecks(if delay.Some? then delays + [delay.value] else delays, was, checked + {id}, reason, now,
                          moments, polling)
  {
    var delay := DelayFor(was[id], reason, now, moments(id), polling);
    var delays' := if delay.Some? then delays + [delay.value] else delays;
    forall d ensures d in delays' <==>
                       exists i :: i in checked + {id} && DelayFor(was[i], reason, now, moments(i), polling) == Some(d)
    {
      if d in delays {
        var i :| i in checked && DelayFor(was[i], reason, now, moments(i), polling) == Some(d);
        assert i in checked + {id};
      } else if i :| i in checked + {id} && DelayFor(was[i], reason, now, moments(i), polling) == Some(d) {
        assert i == id;
      }
    }
  }

  lemma NothingToWaitFor(
    delays: seq<int>, was: map<string, Daemon>, daemons: map<string, Daemon>, ids: set<string>, reason: StoppingReason,
    now: int, moments: string -> Moment, polling: int
  )
    requires ids <= was.Keys && AllChecked(was, daemons, ids, reason, now, moments, polling)
    requires IsOfChecks(delays, was, ids, reason, now, moments, polling)
    ensures delays == [] <==> forall id :: id in ids ==> !daemons[id].alive || IsAbandoned(was[id], now)
  {
    forall id | id in ids
      ensures DelayFor(was[id], reason, now, moments(id), polling).None?
              <==> !daemons[id].alive || IsAbandoned(was[id], now)
    {
      NoDelayExactly(was[id], reason, now, moments(id), polling);
    }
    if delays != [] {
      var d := delays[0];
      assert d in delays;
      var id :| id in ids && DelayFor(was[id], reason, now, moments(id), polling) == Some(d);
      assert !(!daemons[id].alive || IsAbandoned(was[id], now));
    }
  }

  predicate IsAsked(daemons: map<string, Daemon>, id: string) {
    id in daemons && daemons[id].stopper.reasons != {}
  }

  function View(
    next: nat, running: map<string, nat>, runners: map<nat, string>, foreverStopped: set<string>,
    daemons: map<string, Daemon>
  ): Memory {
    Memory(next, running, map t | t in runners :: Runner(runners[t], IsAsked(daemons, runners[t])), foreverStopped)
  }

  /** A new daemon is not asked to stop yet. */
  lemma ViewOfSpawned(m: Memory, runners: map<nat, string>, daemons: map<string, Daemon>, h: Handler)
    requires m == View(m.next, m.running, runners, m.foreverStopped, daemons)
    requires daemons.Keys == m.running.Keys && h.id !in daemons
    requires forall t :: t in runners ==> runners[t] in m.running
    ensures SpawnedOne(m, h.id)
            == View(m.next + 1, m.running[h.id := m.next], runners[m.next := h.id], m.foreverStopped,
                    daemons[h.id := Spawned(h)])
  {
    var after := View(m.next + 1, m.running[h.id := m.next], runners[m.next := h.id], m.foreverStopped,
                      daemons[h.id := Spawned(h)]);
    assert after.runners == m.runners[m.next := Runner(h.id, false)];
  }

  /** Nobody else runs under the id of the one that exits. */
  lemma OthersRunElsewhere(m: Memory, t: nat)
    requires Inv(m) && t in m.runners
    ensures var id := m.runners[t].id;
            && id in m.running && id !in m.foreverStopped && m.running[id] == t
            && forall u :: u in m.runners && u != t ==> m.runners[u].id != id
  {
  }

  lemma ViewOfExited(m: Memory, runners: map<nat, string>, daemons: map<string, Daemon>, t: nat)
    requires m == View(m.next, m.running, runners, m.foreverStopped, daemons)
    requires t in runners && runners[t] in daemons && forall u :: u in runners && u != t ==> runners[u] != runners[t]
    ensures var id := runners[t];
            Exited(m, t)
            == View(m.next, m.running - {id}, runners - {t},
                    if daemons[id].stopper.reasons == {} then m.foreverStopped + {id} else m.foreverStopped,
                    daemons - {id})
  {
    var id := runners[t];
    assert Exited(m, t).runners
           == map u | u in runners - {t} :: Runner(runners[u], IsAsked(daemons - {id}, runners[u]));
  }

  lemma FreeIfAsked(m: Memory, id: string)
    ensures Enabled(m, Spawn([id])) <==> id !in m.foreverStopped
  {
    assert [id][0] == id;
  }

  lemma ExitingKeeps(m: Memory, runners: map<nat, string>, daemons: map<string, Daemon>, t: nat)
    requires m == View(m.next, m.running, runners, m.foreverStopped, daemons) && Inv(m)
    requires t in runners && daemons.Keys == m.running.Keys
    ensures var id, m' := runners[t], Exited(m, t);
            && id in daemons && id !in m.foreverStopped && Inv(m')
            && m' == View(m.next, m.running - {id}, runners - {t},
                          if daemons[id].stopper.reasons == {} then m.foreverStopped + {id} else m.foreverStopped,
                          daemons - {id})
            && (Enabled(m', Spawn([id])) <==> daemons[id].stopper.reasons != {})
  {
    var id := runners[t];
    StepKeeps(m, Exit(t));
    OthersRunElsewhere(m, t);
    forall u | u in runners && u != t ensures runners[u] != id {
      assert m.runners[u].id == runners[u];
    }
    ViewOfExited(m, runners, daemons, t);
    FreeIfAsked(Exited(m, t), id);
  }

  /** Asking is what the flags of the daemons say, if all the given ones have some now. */
  lemma ViewOfAsked(m: Memory, runners: map<nat, string>, was: map<string, Daemon>, now: map<string, Daemon>,
                    ids: set<string>)
    requires m == View(m.next, m.running, runners, m.foreverStopped, was) && was.Keys == now.Keys
    requires forall id :: id in now ==> if id in ids then IsAsked(now, id) else now[id] == was[id]
    requires forall t :: t in runners ==> runners[t] in now
    ensures Next(m, Ask(ids)) == View(m.next, m.running, runners, m.foreverStopped, now)
  {
    assert Next(m, Ask(ids)).runners == View(m.next, m.running, runners, m.foreverStopped, now).runners;
  }

  class DaemonsMemory {
    var next: nat
    var running: map<string, nat>
    var runners: map<nat, string>
    var foreverStopped: set<string>
    var daemons: map<string, Daemon>

    /** The runner is asked to stop with the flags of its daemon. */
    ghost function Now(): Memory
      reads this
    {
      View(next, running, runners, foreverStopped, daemons)
    }

    /** Each running daemon has its runner, and only one; none of those stopped forever runs. */
    ghost predicate Valid()
      reads this
    {
      Inv(Now()) && daemons.Keys == running.Keys
    }

    constructor ()
      ensures Valid() && Now() == NOTHING && daemons == map[]
    {
      next, running, runners, foreverStopped, daemons := 0, map[], map[], {}, map[];
    }

    /** Only those that are not running yet; the others are not touched. */
    method SpawnDaemons(handlers: seq<Handler>)
      requires Valid() && forall i :: 0 <= i < |handlers| ==> handlers[i].id !in foreverStopped
      modifies this
      ensures Valid() && foreverStopped == old(foreverStopped)
      ensures Added(handlers, old(daemons), daemons)
      ensures forall t :: t in old(runners) ==> t in runners && runners[t] == old(runners)[t]
      ensures Now() == SpawnedAll(old(Now()), Ids(handlers))
    {
      SpawningKeeps(Now(), Ids(handlers));
      RunnersMatch();
      ghost var was := runners;
      SpawnEach(handlers);
      forall t | t in was ensures t in runners && runners[t] == was[t] {
        assert t in old(Now()).runners && Now().runners[t] == old(Now()).runners[t];
      }
    }

    lemma RunnersMatch()
      requires Valid()
      ensures Matched()
    {
      forall t | t in runners ensures runners[t] in running { assert t in Now().runners; }
    }

    /** Each runner is of some daemon. */
    ghost predicate Matched()
      reads this
    {
      daemons.Keys == running.Keys && forall t :: t in runners ==> runners[t] in running
    }

    method SpawnOne(h: Handler)
      requires Matched()
      modifies this
      ensures Now() == SpawnedOne(old(Now()), h.id) && Matched()
      ensures daemons == if h.id in old(daemons) then old(daemons) else old(daemons)[h.id := Spawned(h)]
    {
      if h.id !in running {
        ViewOfSpawned(Now(), runners, daemons, h);
        running := running[h.id := next];
        runners := runners[next := h.id];
        daemons := daemons[h.id := Spawned(h)];
        next := next + 1;
      }
    }

    method SpawnEach(handlers: seq<Handler>)
      requires Matched()
      modifies this
      ensures Now() == SpawnedAll(old(Now()), Ids(handlers)) && Matched()
      ensures Added(handlers, old(daemons), daemons)
    {
      var i := 0;
      while i < |handlers|
        invariant 0 <= i <= |handlers|
        invariant Now() == SpawnedAll(old(Now()), Ids(handlers[..i])) && Matched()
        invariant Added(handlers[..i], old(daemons), daemons)
      {
        assert handlers[..i + 1] == handlers[..i] + [handlers[i]];
        SpawnedNext(old(Now()), handlers[..i], handlers[i]);
        AddedOne(handlers[..i], old(daemons), daemons, handlers[i]);
        SpawnOne(handlers[i]);
        i := i + 1;
      }
      assert handlers[..i] == handlers;
    }

    /** The end of the runner, whatever has ended it: the daemon can be spawned again if and only if it was asked to
        stop; the other daemons and their runners are not touched. */
    method EndRunner(t: nat)
      requires Valid() && t in runners
      modifies this
      ensures Valid() && Now() == Next(old(Now()), Exit(t))
      ensures var id := old(runners)[t];
              && id in old(daemons) && daemons == old(daemons) - {id} && runners == old(runners) - {t}
              && (Enabled(Now(), Spawn([id])) <==> old(daemons)[id].stopper.reasons != {})
              && foreverStopped - {id} == old(foreverStopped)
    {
      ExitingKeeps(Now(), runners, daemons, t);
      var id := runners[t];
      if daemons[id].stopper.reasons == {} {
        foreverStopped := foreverStopped + {id};
      }
      running, runners, daemons := running - {id}, runners - {t}, daemons - {id};
    }

    /** `stop_daemons` for some of the daemons: all of them are checked and asked to stop; the delays are those of the
        checks, and nothing is to be waited for exactly if each of them has exited or is given up. */
    method StopDaemons(ids: set<string>, reason: StoppingReason, now: int, moments: string -> Moment, polling: int)
      returns (delays: seq<int>)
      requires Valid() && ids <= daemons.Keys
      modifies this`daemons
      ensures Valid() && Now() == Next(old(Now()), Ask(ids))
      ensures AllChecked(old(daemons), daemons, ids, reason, now, moments, polling)
      ensures IsOfChecks(delays, old(daemons), ids, reason, now, moments, polling)
      ensures delays == [] <==> forall id :: id in ids ==> !daemons[id].alive || IsAbandoned(old(daemons)[id], now)
    {
      RunnersMatch();
      StepKeeps(Now(), Ask(ids));
      ghost var was, before := daemons, Now();
      delays := StopEach(ids, reason, now, moments, polling);
      CheckedAreAsked(was, daemons, ids, reason, now, moments, polling);
      ViewOfAsked(before, runners, was, daemons, ids);
      NothingToWaitFor(delays, was, daemons, ids, reason, now, moments, polling);
    }

    method StopEach(ids: set<string>, reason: StoppingReason, now: int, moments: string -> Moment, polling: int)
      returns (delays: seq<int>)
      requires ids <= daemons.Keys
      modifies this`daemons
      ensures AllChecked(old(daemons), daemons, ids, reason, now, moments, polling)
      ensures IsOfChecks(delays, old(daemons), ids, reason, now, moments, polling)
    {
      delays := [];
      var left := ids;
      while left != {}
        invariant left <= ids && AllChecked(old(daemons), daemons, ids - left, reason, now, moments, polling)
        invariant IsOfChecks(delays, old(daemons), ids - left, reason, now, moments, polling)
      {
        var id :| id in left;
        OneMoreCheck(delays, old(daemons), daemons, ids - left, id, reason, now, moments, polling);
        assert ids - (left - {id}) == ids - left + {id};
        var r := Checked(daemons[id], reason, now, moments(id), polling);
        daemons := daemons[id := r.0];
        if r.1.Some? {
          delays := delays + [r.1.value];
        }
        left := left - {id};
      }
      assert ids - left == ids;
    }
  }
}

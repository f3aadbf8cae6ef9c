/** The per-object protocol of a resource watcher and its workers. */
module Queueing {
  import opened Wrappers

  // kopf/_core/reactor/queueing.py, and the consistency gate of kopf/_core/reactor/processing.py.
  //
  // A step is what runs between two points where a coroutine gives the control away. The steps of all coroutines
  // interleave in any order. What the processor does inside is arbitrary, except for its consistency gate.

  datatype Event = Event(kind: string, version: Option<string>)

  /** What the watch-stream yields; bookmarks are of the cluster or of the listing. */
  datatype Input = Bookmark | Object(uid: string, event: Event)

  datatype Item = Raw(event: Event) | EndOfStream

  datatype Queue = Queue(backlog: seq<Item>, pressure: bool)

  datatype Phase =
    | Starting
    | Waiting(until: real)
    | Processing
    | Sleeping(until: real, initiallyEmpty: bool)
    | Handling(gone: bool)
    | Finishing
    | Leaving
    | Failed

  /** A worker: its arguments, its local variables, and the place where it is. */
  datatype Task = Task(uid: string, queue: nat, phase: Phase, expected: Option<string>, deadline: Option<real>)

  /** `consistency_timeout` is zero if it is not configured. */
  datatype Settings = Settings(idleTimeout: real, consistencyTimeout: real)

  /** For the specification: the latest patch of the object, and whether its version was seen since then. */
  datatype Patched = Patched(version: string, deadline: real, arrived: bool)

  datatype State = State(
    clock: real, closing: bool, next: nat,
    streams: map<string, nat>, queues: map<nat, Queue>, tasks: map<nat, Task>,
    received: map<string, seq<Event>>, handed: map<string, seq<Event>>, last: map<string, Patched>
  )

  const INITIAL: State := State(0.0, false, 0, map[], map[], map[], map[], map[], map[])

  /** What the processor finds in one cycle for the gate. */
  datatype Findings = Findings(cause: Option<bool>, initiallyEmpty: bool, empty: bool)

  datatype Step =
    | Tick(to: real)
    | Watch(input: Input)
    | Close
    | Start(task: nat)
    | Take(task: nat)
    | TimeOut(task: nat)
    | Decide(task: nat, findings: Findings)
    | Wake(task: nat, timedOut: bool)
    | Return(task: nat, version: Option<string>)
    | End(task: nat)

  function At(m: map<string, seq<Event>>, uid: string): seq<Event> {
    if uid in m then m[uid] else []
  }

  predicate InPhase(s: State, task: nat) { task in s.tasks && s.tasks[task].phase != Failed }

  predicate Enabled(s: State, step: Step) {
    match step
    case Tick(to) => s.clock <= to
    case Watch(_) => !s.closing
    case Close => !s.closing
    case Start(t) => InPhase(s, t) && s.tasks[t].phase.Starting?
    case Take(t) => InPhase(s, t) && s.tasks[t].phase.Waiting? && s.tasks[t].queue in s.queues
                    && s.queues[s.tasks[t].queue].backlog != []
    case TimeOut(t) => InPhase(s, t) && s.tasks[t].phase.Waiting? && s.tasks[t].queue in s.queues
                       && s.tasks[t].phase.until <= s.clock
    case Decide(t, _) => InPhase(s, t) && s.tasks[t].phase.Processing?
    case Wake(t, timedOut) => InPhase(s, t) && s.tasks[t].phase.Sleeping? && s.tasks[t].queue in s.queues
                              && if timedOut then s.tasks[t].phase.until <= s.clock
                                 else s.queues[s.tasks[t].queue].pressure
    case Return(t, _) => InPhase(s, t)
      && (s.tasks[t].phase.Processing? || s.tasks[t].phase.Handling? || s.tasks[t].phase.Finishing?)
    case End(t) => InPhase(s, t) && s.tasks[t].phase.Leaving?
  }

  function Max(a: real, b: real): real { if a < b then b else a }

  /** The worker does not retire earlier than the patch is seen or given up: the idle timeout is stretched. */
  function Until(cfg: Settings, clock: real, deadline: Option<real>): real {
    clock + Max(cfg.idleTimeout, if deadline.Some? then deadline.value - clock else 0.0)
  }

  /** The watcher feeds the existing worker of the object, or starts a new one with a new queue. */
  function Watched(s: State, uid: string, event: Event): State {
    var s' := s.(received := s.received[uid := At(s.received, uid) + [event]]);
    if uid in s.streams && s.streams[uid] in s.queues then Fed(s', s.streams[uid], event) else Opened(s', uid, event)
  }

  function Fed(s: State, q: nat, event: Event): State
    requires q in s.queues
  {
    s.(queues := s.queues[q := Queue(s.queues[q].backlog + [Raw(event)], true)])
  }

  function Opened(s: State, uid: string, event: Event): State {
    s.(streams := s.streams[uid := s.next], queues := s.queues[s.next := Queue([Raw(event)], true)],
       tasks := s.tasks[s.next := Task(uid, 0, Starting, None, None)], next := s.next + 1)
  }

  function Closed(s: State): State {
    s.(closing := true, queues := map q | q in s.queues ::
      if q in s.streams.Values then WithEnd(s.queues[q]) else s.queues[q])
  }

  function WithEnd(queue: Queue): Queue { queue.(backlog := queue.backlog + [EndOfStream]) }

  function WithTask(s: State, t: nat, task: Task): State { s.(tasks := s.tasks[t := task]) }

  function Started(cfg: Settings, s: State, t: nat): State
    requires t in s.tasks
  {
    var task := s.tasks[t];
    if task.uid in s.streams then
      WithTask(s, t, task.(queue := s.streams[task.uid], phase := Waiting(Until(cfg, s.clock, None)),
                           expected := None, deadline := None))
    else WithTask(s, t, task.(phase := Failed))
  }

  function Left(s: State, t: nat): State
    requires t in s.tasks
  {
    WithTask(s.(streams := s.streams - {s.tasks[t].uid}), t, s.tasks[t].(phase := Leaving))
  }

  function Seen(last: map<string, Patched>, uid: string, event: Event): map<string, Patched> {
    if uid in last && event.version == Some(last[uid].version) then last[uid := last[uid].(arrived := true)] else last
  }

  function Taken(s: State, t: nat): State
    requires Enabled(s, Take(t))
  {
    var q := s.tasks[t].queue;
    var queue, rest := s.queues[q], s.queues[q].backlog[1..];
    match queue.backlog[0]
    case EndOfStream => Left(s.(queues := s.queues[q := Queue(rest, queue.pressure)]), t)
    case Raw(event) => Noticed(s.(queues := s.queues[q := Queue(rest, queue.pressure && rest != [])]), t, event)
  }

  /** The pressure is relieved with the last event; the expected version ends the waiting for it. */
  function Noticed(s: State, t: nat, event: Event): State
    requires t in s.tasks
  {
    var task := s.tasks[t];
    var met := task.expected.Some? && event.version == task.expected;
    WithTask(s, t, task.(phase := Processing, expected := if met then None else task.expected,
                         deadline := if met then None else task.deadline))
      .(handed := s.handed[task.uid := At(s.handed, task.uid) + [event]], last := Seen(s.last, task.uid, event))
  }

  function TimedOut(cfg: Settings, s: State, t: nat): State
    requires Enabled(s, TimeOut(t))
  {
    var task := s.tasks[t];
    if s.queues[task.queue].backlog == [] then Left(s, t)
    else WithTask(s, t, task.(phase := Waiting(Until(cfg, s.clock, task.deadline))))
  }

  /** The gate: `cause` is none if there is nothing for the state-dependent handlers, or else whether it is GONE. */
  function Gate(f: Findings, deadline: Option<real>, clock: real): Phase {
    if f.cause.None? then Finishing
    else if deadline.None? || f.cause.value then
      if f.initiallyEmpty then Handling(f.cause.value) else Finishing
    else if f.empty && deadline.value != 0.0 then
      if deadline.value - clock <= 0.0 then AfterSleep(true, f.initiallyEmpty)
        else Sleeping(deadline.value, f.initiallyEmpty)
    else Finishing
  }

  function AfterSleep(timedOut: bool, initiallyEmpty: bool): Phase {
    if timedOut && initiallyEmpty then Handling(false) else Finishing
  }

  function Returned(cfg: Settings, s: State, t: nat, version: Option<string>): State
    requires t in s.tasks
  {
    var task := s.tasks[t];
    var until := s.clock + cfg.consistencyTimeout;
    var task' := if version.Some? && cfg.consistencyTimeout != 0.0
                 then task.(expected := version, deadline := Some(until)) else task;
    WithTask(s, t, task'.(phase := Waiting(Until(cfg, s.clock, task'.deadline))))
      .(last := if version.Some? then s.last[task.uid := Patched(version.value, until, false)] else s.last)
  }

  function Next(cfg: Settings, s: State, step: Step): State
    requires Enabled(s, step)
  {
    match step
    case Tick(to) => s.(clock := to)
    case Watch(input) => if input.Object? then Watched(s, input.uid, input.event) else s
    case Close => Closed(s)
    case Start(t) => Started(cfg, s, t)
    case Take(t) => Taken(s, t)
    case TimeOut(t) => TimedOut(cfg, s, t)
    case Decide(t, f) => WithTask(s, t, s.tasks[t].(phase := Gate(f, s.tasks[t].deadline, s.clock)))
    case Wake(t, timedOut) =>
      WithTask(s, t, s.tasks[t].(phase := AfterSleep(timedOut, s.tasks[t].phase.initiallyEmpty)))
    case Return(t, version) => Returned(cfg, s, t, version)
    case End(t) => s.(tasks := s.tasks - {t})
  }

  // ----- What every step keeps -----

  predicate Live(s: State, t: nat) { t in s.tasks && s.tasks[t].phase != Leaving }

  /** The events of a queue until the end of the stream. */
  function Events(items: seq<Item>): seq<Event> {
    if items == [] || items[0].EndOfStream? then [] else [items[0].event] + Events(items[1..])
  }

  function Backlog(s: State, uid: string): seq<Event> {
    if uid in s.streams && s.streams[uid] in s.queues then Events(s.queues[s.streams[uid]].backlog) else []
  }

  predicate GoodQueue(items: seq<Item>, closing: bool) {
    forall i :: 0 <= i < |items| ==> items[i].Raw? || (closing && i == |items| - 1)
  }

  /** The last patch of the object was seen since it was made, or is not waited for anymore. */
  predicate Consistent(s: State, uid: string) {
    uid in s.last ==> s.last[uid].arrived || s.last[uid].deadline <= s.clock
  }

  /** Each event received for the object was handed to the processor, or is in the backlog, in the same order.
      A stream has its worker; no stream means that nothing is waited for. */
  predicate StreamOk(s: State, uid: string) {
    && At(s.received, uid) == At(s.handed, uid) + Backlog(s, uid)
    && if uid in s.streams then
         var t := s.streams[uid];
         Live(s, t) && s.tasks[t].uid == uid && t in s.queues && GoodQueue(s.queues[t].backlog, s.closing)
       else s.closing || Consistent(s, uid)
  }

  /** While the object is inconsistent, its worker knows that, and does not retire. */
  predicate Aware(s: State, task: Task) {
    && (task.expected.Some? <==> task.deadline.Some?)
    && (task.phase == Starting ==> task.expected == None)
    && (!Consistent(s, task.uid) ==>
          task.expected == Some(s.last[task.uid].version) && task.deadline == Some(s.last[task.uid].deadline))
    && (task.phase.Waiting? && task.deadline.Some? ==> task.deadline.value <= task.phase.until)
    && (task.phase.Sleeping? ==> task.deadline == Some(task.phase.until))
    && (task.phase.Handling? ==> task.phase.gone || Consistent(s, task.uid))
  }

  /** The live worker is the one of the stream; the queue and the worker of a stream are created with the same
      number. */
  predicate TaskOk(s: State, t: nat)
    requires t in s.tasks
  {
    var task := s.tasks[t];
    && t < s.next
    && (task.phase != Leaving ==>
          && task.phase != Failed && task.uid in s.streams && s.streams[task.uid] == t
          && (task.phase != Starting ==> task.queue == t)
          && Aware(s, task))
  }

  ghost predicate Inv(s: State) {
    && (forall t :: t in s.tasks ==> TaskOk(s, t))
    && (forall uid :: StreamOk(s, uid))
    && (forall q :: q in s.queues ==> q < s.next)
  }

  lemma {:induction false} EventsOfMore(items: seq<Item>, item: Item)
    requires GoodQueue(items, false)
    ensures Events(items + [item]) == Events(items) + (if item.Raw? then [item.event] else [])
    decreases |items|
  {
    if items != [] {
      EventsOfMore(items[1..], item);
      assert (items + [item])[1..] == items[1..] + [item];
    }
  }

  /** Only this object's stream, and only this worker and its queue are touched. */
  predicate SameElsewhere(s: State, s': State, uid: string, t: nat) {
    && s'.clock == s.clock && s'.closing == s.closing && s.next <= s'.next
    && s'.streams - {uid} == s.streams - {uid}
    && s'.received - {uid} == s.received - {uid}
    && s'.handed - {uid} == s.handed - {uid}
    && s'.last - {uid} == s.last - {uid}
    && s'.tasks - {t} == s.tasks - {t}
    && s'.queues - {t} == s.queues - {t}
  }

  lemma OtherTask(s: State, s': State, uid: string, t: nat, u: nat)
    requires Inv(s) && SameElsewhere(s, s', uid, t)
    requires uid in s.streams ==> s.streams[uid] == t
    requires u in s'.tasks && u != t
    ensures TaskOk(s', u)
  {
    assert u in s'.tasks - {t} && u in s.tasks - {t};
    assert s'.tasks[u] == (s'.tasks - {t})[u] == (s.tasks - {t})[u] == s.tasks[u];
    assert TaskOk(s, u);
    var other := s.tasks[u].uid;
    if s.tasks[u].phase != Leaving {
      assert other != uid;
      assert other in s.streams - {uid} && other in s'.streams - {uid};
      assert (s'.streams - {uid})[other] == (s.streams - {uid})[other];
      assert other in s.last <==> other in s.last - {uid};
      assert other in s'.last <==> other in s'.last - {uid};
      assert other in s.last ==> (s'.last - {uid})[other] == (s.last - {uid})[other];
    }
  }

  lemma OtherKey<V>(m: map<string, V>, m': map<string, V>, uid: string, other: string)
    requires m' - {uid} == m - {uid} && other != uid
    ensures other in m' <==> other in m
    ensures other in m ==> m'[other] == m[other]
  {
    assert other in m <==> other in m - {uid};
    assert other in m' <==> other in m' - {uid};
    assert other in m ==> (m' - {uid})[other] == (m - {uid})[other];
  }

  lemma OtherStream(s: State, s': State, uid: string, t: nat, other: string)
    requires Inv(s) && SameElsewhere(s, s', uid, t) && other != uid
    requires t in s.tasks ==> s.tasks[t].uid == uid
    ensures StreamOk(s', other)
  {
    assert StreamOk(s, other);
    OtherKey(s.streams, s'.streams, uid, other);
    OtherKey(s.received, s'.received, uid, other);
    OtherKey(s.handed, s'.handed, uid, other);
    OtherKey(s.last, s'.last, uid, other);
    if other in s.streams {
      var u := s.streams[other];
      assert u != t;
      assert u in s.tasks - {t} && u in s'.tasks - {t} && (s'.tasks - {t})[u] == (s.tasks - {t})[u];
      assert u in s.queues - {t} && u in s'.queues - {t} && (s'.queues - {t})[u] == (s.queues - {t})[u];
    }
  }

  /** It is enough to look at the touched worker and at the touched stream. */
  lemma Locally(s: State, s': State, uid: string, t: nat)
    requires Inv(s) && SameElsewhere(s, s', uid, t)
    requires uid in s.streams ==> s.streams[uid] == t
    requires t in s.tasks ==> s.tasks[t].uid == uid
    requires StreamOk(s', uid) && (t in s'.tasks ==> TaskOk(s', t)) && (t in s'.queues ==> t < s'.next)
    ensures Inv(s')
  {
    forall u | u in s'.tasks ensures TaskOk(s', u) {
      if u != t { OtherTask(s, s', uid, t, u); }
    }
    forall other ensures StreamOk(s', other) {
      if other != uid { OtherStream(s, s', uid, t, other); }
    }
    forall q | q in s'.queues ensures q < s'.next {
      if q != t { assert q in s'.queues - {t} && q in s.queues - {t}; }
    }
  }

  lemma FeedKeeps(s: State, uid: string, event: Event)
    requires Inv(s) && !s.closing && uid in s.streams
    ensures Inv(Watched(s, uid, event))
  {
    var t := s.streams[uid];
    assert StreamOk(s, uid) && TaskOk(s, t);
    EventsOfMore(s.queues[t].backlog, Raw(event));
    Locally(s, Watched(s, uid, event), uid, t);
  }

  lemma OpenTouches(s: State, uid: string, event: Event)
    requires Inv(s) && !s.closing && uid !in s.streams
    ensures SameElsewhere(s, Watched(s, uid, event), uid, s.next) && s.next !in s.tasks && s.next !in s.queues
  {
    var s' := Watched(s, uid, event);
    assert forall t :: t in s.tasks ==> TaskOk(s, t);
    assert s.next !in s.tasks && s.next !in s.queues;
    assert s'.tasks - {s.next} == s.tasks - {s.next};
    assert s'.queues - {s.next} == s.queues - {s.next};
  }

  lemma OpenedStreamIsOk(s: State, uid: string, event: Event)
    requires Inv(s) && !s.closing && uid !in s.streams
    ensures StreamOk(Watched(s, uid, event), uid)
  {
    assert StreamOk(s, uid);
    assert Events([Raw(event)]) == [event] + Events([]) by { assert [Raw(event)][1..] == []; }
  }

  lemma OpenKeeps(s: State, uid: string, event: Event)
    requires Inv(s) && !s.closing && uid !in s.streams
    ensures Inv(Watched(s, uid, event))
  {
    assert StreamOk(s, uid);
    OpenTouches(s, uid, event);
    OpenedStreamIsOk(s, uid, event);
    Locally(s, Watched(s, uid, event), uid, s.next);
  }

  lemma CloseKeeps(s: State)
    requires Inv(s) && !s.closing
    ensures Inv(Closed(s))
  {
    var s' := Closed(s);
    forall t | t in s'.tasks ensures TaskOk(s', t) { assert TaskOk(s, t); }
    forall uid ensures StreamOk(s', uid) {
      assert StreamOk(s, uid);
      if uid in s.streams {
        assert s.streams[uid] in s.streams.Values;
        EventsOfMore(s.queues[s.streams[uid]].backlog, EndOfStream);
      }
    }
  }

  lemma LeaveKeeps(s: State, t: nat)
    requires Inv(s) && Live(s, t)
    requires s.closing || Consistent(s, s.tasks[t].uid)
    requires t in s.queues ==> Events(s.queues[t].backlog) == []
    ensures Inv(Left(s, t))
  {
    var uid, s' := s.tasks[t].uid, Left(s, t);
    assert TaskOk(s, t) && StreamOk(s, uid);
    Locally(s, s', uid, t);
  }

  lemma TakeEndKeeps(s: State, t: nat)
    requires Inv(s) && Enabled(s, Take(t)) && s.queues[s.tasks[t].queue].backlog[0].EndOfStream?
    ensures Inv(Taken(s, t))
  {
    assert TaskOk(s, t) && StreamOk(s, s.tasks[t].uid);
    var queue := s.queues[t];
    assert queue.backlog[1..] == [];
    var s' := s.(queues := s.queues[t := Queue([], queue.pressure)]);
    Locally(s, s', s.tasks[t].uid, t);
    LeaveKeeps(s', t);
  }

  lemma TakenStreamIsOk(s: State, t: nat)
    requires Inv(s) && Enabled(s, Take(t)) && s.queues[s.tasks[t].queue].backlog[0].Raw?
    ensures StreamOk(Taken(s, t), s.tasks[t].uid)
  {
    assert TaskOk(s, t) && StreamOk(s, s.tasks[t].uid);
    var backlog := s.queues[t].backlog;
    assert Events(backlog) == [backlog[0].event] + Events(backlog[1..]);
  }

  lemma TakenTaskIsOk(s: State, t: nat)
    requires Inv(s) && Enabled(s, Take(t)) && s.queues[s.tasks[t].queue].backlog[0].Raw?
    ensures TaskOk(Taken(s, t), t)
  {
    assert TaskOk(s, t) && StreamOk(s, s.tasks[t].uid);
  }

  lemma TakeEventKeeps(s: State, t: nat)
    requires Inv(s) && Enabled(s, Take(t)) && s.queues[s.tasks[t].queue].backlog[0].Raw?
    ensures Inv(Taken(s, t))
  {
    assert TaskOk(s, t) && StreamOk(s, s.tasks[t].uid);
    TakeTouches(s, t);
    TakenStreamIsOk(s, t);
    TakenTaskIsOk(s, t);
    Locally(s, Taken(s, t), s.tasks[t].uid, t);
  }

  lemma TimeOutKeeps(cfg: Settings, s: State, t: nat)
    requires Inv(s) && Enabled(s, TimeOut(t))
    ensures Inv(TimedOut(cfg, s, t))
  {
    assert TaskOk(s, t) && StreamOk(s, s.tasks[t].uid);
    if s.queues[t].backlog == [] {
      LeaveKeeps(s, t);
    } else {
      Locally(s, TimedOut(cfg, s, t), s.tasks[t].uid, t);
    }
  }

  lemma StartKeeps(cfg: Settings, s: State, t: nat)
    requires Inv(s) && Enabled(s, Start(t))
    ensures Inv(Started(cfg, s, t))
  {
    assert TaskOk(s, t) && StreamOk(s, s.tasks[t].uid);
    Locally(s, Started(cfg, s, t), s.tasks[t].uid, t);
  }

  lemma ReturnKeeps(cfg: Settings, s: State, t: nat, version: Option<string>)
    requires Inv(s) && Enabled(s, Return(t, version))
    ensures Inv(Returned(cfg, s, t, version))
  {
    assert TaskOk(s, t) && StreamOk(s, s.tasks[t].uid);
    Locally(s, Returned(cfg, s, t, version), s.tasks[t].uid, t);
  }

  lemma GateKeeps(s: State, t: nat, phase: Phase)
    requires Inv(s) && t in s.tasks && InProcessor(s.tasks[t].phase)
    requires phase.Sleeping? || phase.Handling? || phase.Finishing?
    requires Aware(s, s.tasks[t].(phase := phase))
    ensures Inv(WithTask(s, t, s.tasks[t].(phase := phase)))
  {
    assert TaskOk(s, t) && StreamOk(s, s.tasks[t].uid);
    Locally(s, WithTask(s, t, s.tasks[t].(phase := phase)), s.tasks[t].uid, t);
  }

  lemma TickKeeps(s: State, to: real)
    requires Inv(s) && s.clock <= to
    ensures Inv(s.(clock := to))
  {
    var s' := s.(clock := to);
    forall t | t in s'.tasks ensures TaskOk(s', t) { assert TaskOk(s, t); }
    forall uid ensures StreamOk(s', uid) { assert StreamOk(s, uid); }
  }

  lemma EndKeeps(s: State, t: nat)
    requires Inv(s) && Enabled(s, End(t))
    ensures Inv(s.(tasks := s.tasks - {t}))
  {
    var s' := s.(tasks := s.tasks - {t});
    forall u | u in s'.tasks ensures TaskOk(s', u) { assert TaskOk(s, u); }
    forall uid ensures StreamOk(s', uid) { assert StreamOk(s, uid); }
  }

  lemma StepKeeps(cfg: Settings, s: State, step: Step)
    requires Inv(s) && Enabled(s, step)
    ensures Inv(Next(cfg, s, step))
  {
    match step
    case Tick(to) => TickKeeps(s, to);
    case Watch(input) =>
      if input.Object? && input.uid in s.streams { FeedKeeps(s, input.uid, input.event); }
      else if input.Object? { OpenKeeps(s, input.uid, input.event); }
    case Close => CloseKeeps(s);
    case Start(t) => StartKeeps(cfg, s, t);
    case Take(t) =>
      if s.queues[s.tasks[t].queue].backlog[0].EndOfStream? { TakeEndKeeps(s, t); } else { TakeEventKeeps(s, t); }
    case TimeOut(t) => TimeOutKeeps(cfg, s, t);
    case Decide(t, f) =>
      assert TaskOk(s, t);
      GateKeeps(s, t, Gate(f, s.tasks[t].deadline, s.clock));
    case Wake(t, timedOut) =>
      assert TaskOk(s, t);
      GateKeeps(s, t, AfterSleep(timedOut, s.tasks[t].phase.initiallyEmpty));
    case Return(t, version) => ReturnKeeps(cfg, s, t, version);
    case End(t) => EndKeeps(s, t);
  }

  // ----- What the steps mean for the events of the objects -----

  /** For the object, nothing is received, handed over, queued, patched, or seen. */
  predicate Untouched(s: State, s': State, uid: string) {
    && At(s'.received, uid) == At(s.received, uid) && At(s'.handed, uid) == At(s.handed, uid)
    && Backlog(s', uid) == Backlog(s, uid)
    && (uid in s'.streams <==> uid in s.streams)
    && (Consistent(s', uid) <==> Consistent(s, uid))
  }

  ghost predicate OthersUntouched(s: State, s': State, uid: string) {
    forall other :: other != uid ==> Untouched(s, s', other)
  }

  lemma OtherEvents(s: State, s': State, uid: string, t: nat)
    requires Inv(s) && SameElsewhere(s, s', uid, t)
    requires t in s.tasks ==> s.tasks[t].uid == uid
    ensures OthersUntouched(s, s', uid)
  {
    forall other | other != uid ensures Untouched(s, s', other) {
      assert StreamOk(s, other);
      OtherKey(s.streams, s'.streams, uid, other);
      OtherKey(s.received, s'.received, uid, other);
      OtherKey(s.handed, s'.handed, uid, other);
      OtherKey(s.last, s'.last, uid, other);
      if other in s.streams {
        var u := s.streams[other];
        assert u != t && u in s.queues - {t} && u in s'.queues - {t} && (s'.queues - {t})[u] == (s.queues - {t})[u];
      }
    }
  }

  /** The event waits as the last one of its object, which has a worker. */
  predicate Queued(s: State, s': State, uid: string, event: Event) {
    && At(s'.received, uid) == At(s.received, uid) + [event] && At(s'.handed, uid) == At(s.handed, uid)
    && Backlog(s', uid) == Backlog(s, uid) + [event]
    && uid in s'.streams && Live(s', s'.streams[uid])
  }

  lemma FeedQueues(s: State, uid: string, event: Event)
    requires Inv(s) && !s.closing && uid in s.streams
    ensures Queued(s, Watched(s, uid, event), uid, event) && OthersUntouched(s, Watched(s, uid, event), uid)
  {
    assert StreamOk(s, uid);
    EventsOfMore(s.queues[s.streams[uid]].backlog, Raw(event));
    OtherEvents(s, Watched(s, uid, event), uid, s.streams[uid]);
  }

  lemma OpenQueues(s: State, uid: string, event: Event)
    requires Inv(s) && !s.closing && uid !in s.streams
    ensures Queued(s, Watched(s, uid, event), uid, event) && OthersUntouched(s, Watched(s, uid, event), uid)
  {
    var s' := Watched(s, uid, event);
    assert s.next !in s.tasks && s.next !in s.queues;
    assert OthersUntouched(s, s', uid) by {
      assert s'.tasks - {s.next} == s.tasks - {s.next};
      assert s'.queues - {s.next} == s.queues - {s.next};
      OtherEvents(s, s', uid, s.next);
    }
    assert Queued(s, s', uid, event) by {
      assert [Raw(event)][1..] == [];
      assert Events([Raw(event)]) == [event] + Events([]);
    }
  }

  /** The awaited version ends the waiting for it; any other version leaves the waiting as it is. */
  predicate EndsWaiting(before: Task, after: Task, version: Option<string>) {
    if before.expected.Some? && version == before.expected then after.expected == None && after.deadline == None
    else after.expected == before.expected && after.deadline == before.deadline
  }

  /** The oldest of the waiting events is handed over to the processor; if there are none, the worker leaves. */
  predicate HandsOver(s: State, s': State, uid: string, t: nat) {
    && At(s'.received, uid) == At(s.received, uid)
    && if Backlog(s, uid) != [] then
         && At(s'.handed, uid) == At(s.handed, uid) + [Backlog(s, uid)[0]] && Backlog(s', uid) == Backlog(s, uid)[1..]
         && t in s.tasks && t in s'.tasks && s'.tasks[t].phase == Processing && uid in s'.streams
         && EndsWaiting(s.tasks[t], s'.tasks[t], Backlog(s, uid)[0].version)
         && (uid in s'.last <==> uid in s.last)
         && (uid in s.last ==>
               var arrives := Backlog(s, uid)[0].version == Some(s.last[uid].version);
               s'.last[uid] == s.last[uid].(arrived := s.last[uid].arrived || arrives))
       else
         s.closing && At(s'.handed, uid) == At(s.handed, uid) && !Live(s', t) && uid !in s'.streams
  }

  lemma NoticedTouches(s: State, t: nat, event: Event)
    requires t in s.tasks
    ensures SameElsewhere(s, Noticed(s, t, event), s.tasks[t].uid, t)
  {
  }

  lemma TakeTouches(s: State, t: nat)
    requires Enabled(s, Take(t)) && s.tasks[t].queue == t
    ensures SameElsewhere(s, Taken(s, t), s.tasks[t].uid, t)
  {
    var item, rest, pressure := s.queues[t].backlog[0], s.queues[t].backlog[1..], s.queues[t].pressure;
    var s1 := s.(queues := s.queues[t := Queue(rest, if item.Raw? then pressure && rest != [] else pressure)]);
    assert s1.queues - {t} == s.queues - {t};
    if item.Raw? { NoticedTouches(s1, t, item.event); }
  }

  lemma TakeIsLocal(s: State, t: nat)
    requires Inv(s) && Enabled(s, Take(t))
    ensures OthersUntouched(s, Taken(s, t), s.tasks[t].uid)
  {
    assert TaskOk(s, t);
    TakeTouches(s, t);
    OtherEvents(s, Taken(s, t), s.tasks[t].uid, t);
  }

  lemma TakeHandsOver(s: State, t: nat)
    requires Inv(s) && Enabled(s, Take(t))
    ensures HandsOver(s, Taken(s, t), s.tasks[t].uid, t)
  {
    assert TaskOk(s, t) && StreamOk(s, s.tasks[t].uid);
    var backlog := s.queues[t].backlog;
    assert Backlog(s, s.tasks[t].uid) == Events(backlog);
    if backlog[0].Raw? {
      assert Events(backlog) == [backlog[0].event] + Events(backlog[1..]);
    } else {
      assert Events(backlog) == [];
    }
  }

  /** For as long as the object can be idle, and if some patch is waited for, then for as long as that; not longer. */
  predicate WaitsAsLong(cfg: Settings, clock: real, task: Task) {
    && task.phase.Waiting? && clock + cfg.idleTimeout <= task.phase.until
    && (task.deadline.Some? ==> task.deadline.value <= task.phase.until)
    && (|| task.phase.until == clock + cfg.idleTimeout
        || task.deadline == Some(task.phase.until)
        || (task.deadline.None? && cfg.idleTimeout < 0.0 && task.phase.until == clock))
  }

  /** The worker either waits on, not less than until the last patch is given up; or it leaves, which is only
      if all what was received is handed over, and the last patch is seen or given up. */
  predicate WaitsOrLeaves(cfg: Settings, s: State, s': State, uid: string, t: nat) {
    && At(s'.received, uid) == At(s.received, uid) && At(s'.handed, uid) == At(s.handed, uid)
    && Backlog(s', uid) == Backlog(s, uid)
    && if uid in s'.streams then
         && Live(s', t) && WaitsAsLong(cfg, s.clock, s'.tasks[t])
         && (!Consistent(s', uid) ==> s'.last[uid].deadline <= s'.tasks[t].phase.until)
       else
         !Live(s', t) && At(s.received, uid) == At(s.handed, uid) && Consistent(s, uid)
  }

  lemma TimeOutWaitsOrLeaves(cfg: Settings, s: State, t: nat)
    requires Inv(s) && Enabled(s, TimeOut(t))
    ensures var s', uid := TimedOut(cfg, s, t), s.tasks[t].uid;
            WaitsOrLeaves(cfg, s, s', uid, t) && OthersUntouched(s, s', uid)
            && (uid !in s'.streams <==> s.queues[t].backlog == [])
  {
    assert TaskOk(s, t) && StreamOk(s, s.tasks[t].uid);
    OtherEvents(s, TimedOut(cfg, s, t), s.tasks[t].uid, t);
  }

  ghost predicate AllUntouched(s: State, s': State) { forall uid :: Untouched(s, s', uid) }

  /** Unless it is GONE, the handlers are about to run only if the last patch is seen or given up. */
  predicate MayHandle(s: State, t: nat) {
    t in s.tasks && s.tasks[t].phase.Handling? ==> s.tasks[t].phase.gone || Consistent(s, s.tasks[t].uid)
  }

  /** The gate lets the handlers of a non-GONE cause go exactly if nothing is waited for, or the deadline is over
      already, and there was nothing to be patched before them; the deadline is waited for only with nothing to be
      patched at all. */
  lemma GateIsExact(s: State, t: nat, f: Findings)
    requires Inv(s) && Enabled(s, Decide(t, f))
    requires f.cause == Some(false)
    ensures var d := s.tasks[t].deadline;
            var phase := Gate(f, d, s.clock);
            && (phase.Handling? <==> f.initiallyEmpty && (d.None? || (d.value != 0.0 && d.value <= s.clock && f.empty)))
            && (phase.Sleeping? <==> d.Some? && d.value != 0.0 && s.clock < d.value && f.empty)
            && (phase.Handling? ==> Consistent(s, s.tasks[t].uid))
            && (phase.Sleeping? && !Consistent(s, s.tasks[t].uid) ==> phase.until == s.last[s.tasks[t].uid].deadline)
  {
    assert TaskOk(s, t);
  }

  lemma DecideIsSafe(s: State, t: nat, f: Findings)
    requires Inv(s) && Enabled(s, Decide(t, f))
    ensures var s' := WithTask(s, t, s.tasks[t].(phase := Gate(f, s.tasks[t].deadline, s.clock)));
            MayHandle(s', t) && AllUntouched(s, s')
            && (f.cause.None? ==> s'.tasks[t].phase == Finishing)
            && (f.cause == Some(true) ==> s'.tasks[t].phase == if f.initiallyEmpty then Handling(true) else Finishing)
  {
    assert TaskOk(s, t);
  }

  /** After the sleep, the handlers go only if it was not interrupted by new events, which means that the patch is given
      up. */
  lemma WakeIsSafe(s: State, t: nat, timedOut: bool)
    requires Inv(s) && Enabled(s, Wake(t, timedOut))
    ensures var s' := WithTask(s, t, s.tasks[t].(phase := AfterSleep(timedOut, s.tasks[t].phase.initiallyEmpty)));
            && MayHandle(s', t) && AllUntouched(s, s')
            && (s'.tasks[t].phase.Handling? ==> timedOut && Consistent(s, s.tasks[t].uid))
            && (s'.tasks[t].phase.Handling? || s'.tasks[t].phase == Finishing)
  {
    assert TaskOk(s, t);
  }

  /** After a patch, the object is inconsistent for the timeout; the worker knows that, and stays for that long. */
  predicate Remembers(cfg: Settings, s: State, s': State, uid: string, t: nat, version: Option<string>) {
    && At(s'.received, uid) == At(s.received, uid) && At(s'.handed, uid) == At(s.handed, uid)
    && Backlog(s', uid) == Backlog(s, uid) && uid in s'.streams
    && (if version.Some? then Consistent(s', uid) <==> cfg.consistencyTimeout <= 0.0
        else Consistent(s', uid) <==> Consistent(s, uid))
    && t in s.tasks && t in s'.tasks && WaitsAsLong(cfg, s.clock, s'.tasks[t])
    && (version.Some? ==>
          uid in s'.last && s'.last[uid] == Patched(version.value, s.clock + cfg.consistencyTimeout, false))
    && (if version.Some? && cfg.consistencyTimeout != 0.0 then
          s'.tasks[t].expected == version && s'.tasks[t].deadline == Some(s.clock + cfg.consistencyTimeout)
        else s'.tasks[t].expected == s.tasks[t].expected && s'.tasks[t].deadline == s.tasks[t].deadline)
    && (!Consistent(s', uid) ==>
          && s'.tasks[t].expected == Some(s'.last[uid].version)
          && s'.last[uid].deadline <= s'.tasks[t].phase.until)
    && (version.Some? && !Consistent(s', uid) ==> s'.tasks[t].expected == version)
  }

  lemma ReturnRemembers(cfg: Settings, s: State, t: nat, version: Option<string>)
    requires Inv(s) && Enabled(s, Return(t, version))
    ensures var s', uid := Returned(cfg, s, t, version), s.tasks[t].uid;
            Remembers(cfg, s, s', uid, t, version) && OthersUntouched(s, s', uid)
  {
    assert TaskOk(s, t) && StreamOk(s, s.tasks[t].uid);
    OtherEvents(s, Returned(cfg, s, t, version), s.tasks[t].uid, t);
  }

  /** The end of a task is not noticed by any object: it was not a worker of any stream anymore. */
  lemma EndIsUnnoticed(s: State, t: nat)
    requires Inv(s) && Enabled(s, End(t))
    ensures var s' := s.(tasks := s.tasks - {t});
            AllUntouched(s, s') && (forall u :: Live(s', u) <==> Live(s, u)) && t !in s.streams.Values
  {
    forall uid | uid in s.streams ensures s.streams[uid] != t { assert StreamOk(s, uid); }
  }

  /** The closing loses no events: all of them will be handed over before the workers see the ends of their streams. */
  lemma CloseIsUnnoticed(s: State)
    requires Inv(s) && !s.closing
    ensures AllUntouched(s, Closed(s))
    ensures forall t :: Live(Closed(s), t) <==> Live(s, t)
  {
    forall uid ensures Untouched(s, Closed(s), uid) {
      assert StreamOk(s, uid);
      if uid in s.streams {
        assert s.streams[uid] in s.streams.Values;
        EventsOfMore(s.queues[s.streams[uid]].backlog, EndOfStream);
      }
    }
  }

  // ----- No needless waiting -----

  /** A worker waits only for the version of the last patch of its object, and only until it has arrived. */
  predicate WaitsForLast(cfg: Settings, s: State, t: nat)
    requires t in s.tasks
  {
    var task := s.tasks[t];
    task.phase != Leaving && task.expected.Some? ==>
      && cfg.consistencyTimeout != 0.0 && task.uid in s.last && !s.last[task.uid].arrived
      && task.expected == Some(s.last[task.uid].version) && task.deadline == Some(s.last[task.uid].deadline)
  }

  ghost predicate NoneWaitsNeedlessly(cfg: Settings, s: State) {
    forall t :: t in s.tasks ==> WaitsForLast(cfg, s, t)
  }

  lemma OthersWaitOn(cfg: Settings, s: State, s': State, uid: string, t: nat, u: nat)
    requires Inv(s) && SameElsewhere(s, s', uid, t) && (uid in s.streams ==> s.streams[uid] == t)
    requires u in s'.tasks && u != t && (u in s.tasks ==> WaitsForLast(cfg, s, u))
    ensures WaitsForLast(cfg, s', u)
  {
    assert u in s'.tasks - {t} && u in s.tasks - {t} && (s'.tasks - {t})[u] == (s.tasks - {t})[u];
    assert TaskOk(s, u);
    if s.tasks[u].phase != Leaving { OtherKey(s.last, s'.last, uid, s.tasks[u].uid); }
  }

  lemma WaitingIsLocal(cfg: Settings, s: State, s': State, uid: string, t: nat)
    requires Inv(s) && NoneWaitsNeedlessly(cfg, s)
    requires SameElsewhere(s, s', uid, t) && (uid in s.streams ==> s.streams[uid] == t)
    requires t in s'.tasks ==> WaitsForLast(cfg, s', t)
    ensures NoneWaitsNeedlessly(cfg, s')
  {
    forall u | u in s'.tasks ensures WaitsForLast(cfg, s', u) {
      if u != t {
        assert u in s'.tasks - {t} && u in s.tasks - {t};
        OthersWaitOn(cfg, s, s', uid, t, u);
      }
    }
  }

  lemma WatchingWaits(cfg: Settings, s: State, uid: string, event: Event)
    requires Inv(s) && !s.closing && NoneWaitsNeedlessly(cfg, s)
    ensures NoneWaitsNeedlessly(cfg, Watched(s, uid, event))
  {
    assert StreamOk(s, uid);
    forall u | u in Watched(s, uid, event).tasks ensures WaitsForLast(cfg, Watched(s, uid, event), u) {
      if u in s.tasks && u != s.next { assert WaitsForLast(cfg, s, u); }
    }
  }

  lemma TakingWaits(cfg: Settings, s: State, t: nat)
    requires Inv(s) && NoneWaitsNeedlessly(cfg, s) && Enabled(s, Take(t))
    ensures NoneWaitsNeedlessly(cfg, Taken(s, t))
  {
    assert TaskOk(s, t) && WaitsForLast(cfg, s, t);
    TakeTouches(s, t);
    WaitingIsLocal(cfg, s, Taken(s, t), s.tasks[t].uid, t);
  }

  lemma PhaseWaits(cfg: Settings, s: State, t: nat, phase: Phase)
    requires Inv(s) && NoneWaitsNeedlessly(cfg, s) && t in s.tasks && s.tasks[t].phase != Leaving
    ensures NoneWaitsNeedlessly(cfg, WithTask(s, t, s.tasks[t].(phase := phase)))
  {
    assert TaskOk(s, t) && WaitsForLast(cfg, s, t);
    WaitingIsLocal(cfg, s, WithTask(s, t, s.tasks[t].(phase := phase)), s.tasks[t].uid, t);
  }

  lemma StartingWaits(cfg: Settings, s: State, t: nat)
    requires Inv(s) && NoneWaitsNeedlessly(cfg, s) && Enabled(s, Start(t))
    ensures NoneWaitsNeedlessly(cfg, Started(cfg, s, t))
  {
    assert TaskOk(s, t);
    WaitingIsLocal(cfg, s, Started(cfg, s, t), s.tasks[t].uid, t);
  }

  lemma TimingOutWaits(cfg: Settings, s: State, t: nat)
    requires Inv(s) && NoneWaitsNeedlessly(cfg, s) && Enabled(s, TimeOut(t))
    ensures NoneWaitsNeedlessly(cfg, TimedOut(cfg, s, t))
  {
    assert TaskOk(s, t) && WaitsForLast(cfg, s, t);
    WaitingIsLocal(cfg, s, TimedOut(cfg, s, t), s.tasks[t].uid, t);
  }

  lemma ReturningWaits(cfg: Settings, s: State, t: nat, version: Option<string>)
    requires Inv(s) && NoneWaitsNeedlessly(cfg, s) && Enabled(s, Return(t, version))
    ensures NoneWaitsNeedlessly(cfg, Returned(cfg, s, t, version))
  {
    assert TaskOk(s, t) && WaitsForLast(cfg, s, t);
    WaitingIsLocal(cfg, s, Returned(cfg, s, t, version), s.tasks[t].uid, t);
  }

  lemma WaitingKeeps(cfg: Settings, s: State, step: Step)
    requires Inv(s) && NoneWaitsNeedlessly(cfg, s) && Enabled(s, step)
    ensures NoneWaitsNeedlessly(cfg, Next(cfg, s, step))
  {
    var s' := Next(cfg, s, step);
    match step
    case Watch(input) => if input.Object? { WatchingWaits(cfg, s, input.uid, input.event); }
    case Take(t) => TakingWaits(cfg, s, t);
    case Tick(_) => forall u | u in s'.tasks ensures WaitsForLast(cfg, s', u) { assert WaitsForLast(cfg, s, u); }
    case Close => forall u | u in s'.tasks ensures WaitsForLast(cfg, s', u) { assert WaitsForLast(cfg, s, u); }
    case End(_) => forall u | u in s'.tasks ensures WaitsForLast(cfg, s', u) { assert WaitsForLast(cfg, s, u); }
    case Start(t) => StartingWaits(cfg, s, t);
    case TimeOut(t) => TimingOutWaits(cfg, s, t);
    case Decide(t, f) => PhaseWaits(cfg, s, t, Gate(f, s.tasks[t].deadline, s.clock));
    case Wake(t, timedOut) => PhaseWaits(cfg, s, t, AfterSleep(timedOut, s.tasks[t].phase.initiallyEmpty));
    case Return(t, version) => ReturningWaits(cfg, s, t, version);
  }

  // ----- New events interrupt the sleep -----

  /** The pressure is on while there are events waiting, and only while there is anything in the queue. The last item
      of the queue is its end marker, once the watching is over. */
  predicate Presses(s: State, uid: string) {
    uid in s.streams && s.streams[uid] in s.queues ==>
      var queue := s.queues[s.streams[uid]];
      && (Events(queue.backlog) != [] ==> queue.pressure) && (queue.pressure ==> queue.backlog != [])
      && (s.closing ==> queue.backlog != [] && queue.backlog[|queue.backlog| - 1].EndOfStream?)
  }

  ghost predicate AllPress(s: State) { forall uid :: Presses(s, uid) }

  lemma OthersPress(s: State, s': State, uid: string, t: nat, other: string)
    requires Inv(s) && SameElsewhere(s, s', uid, t) && (t in s.tasks ==> s.tasks[t].uid == uid)
    requires other != uid && Presses(s, other)
    ensures Presses(s', other)
  {
    assert StreamOk(s, other);
    OtherKey(s.streams, s'.streams, uid, other);
    if other in s.streams {
      var u := s.streams[other];
      assert u != t && u in s.queues - {t} && u in s'.queues - {t} && (s'.queues - {t})[u] == (s.queues - {t})[u];
    }
  }

  lemma WatchingPresses(s: State, uid: string, event: Event)
    requires Inv(s) && AllPress(s) && !s.closing
    ensures AllPress(Watched(s, uid, event))
  {
    var s' := Watched(s, uid, event);
    forall other ensures Presses(s', other) {
      assert Presses(s, other);
      if other != uid { OtherWatched(s, uid, event, other); } else { OneWatched(s, uid, event); }
    }
  }

  lemma OneWatched(s: State, uid: string, event: Event)
    requires Inv(s) && !s.closing
    ensures Presses(Watched(s, uid, event), uid)
  {
    assert StreamOk(s, uid);
  }

  lemma OtherWatched(s: State, uid: string, event: Event, other: string)
    requires Inv(s) && !s.closing && Presses(s, other) && other != uid
    ensures Presses(Watched(s, uid, event), other)
  {
    assert StreamOk(s, other) && StreamOk(s, uid);
    if other in s.streams {
      assert TaskOk(s, s.streams[other]);
      assert uid in s.streams ==> s.streams[uid] != s.streams[other];
    }
  }

  lemma TakingPresses(s: State, t: nat)
    requires Inv(s) && AllPress(s) && Enabled(s, Take(t))
    ensures AllPress(Taken(s, t))
  {
    assert TaskOk(s, t) && StreamOk(s, s.tasks[t].uid) && Presses(s, s.tasks[t].uid);
    var backlog := s.queues[t].backlog;
    assert backlog[0].Raw? ==> Events(backlog) == [backlog[0].event] + Events(backlog[1..]);
    TakeTouches(s, t);
    forall other ensures Presses(Taken(s, t), other) {
      if other != s.tasks[t].uid { OthersPress(s, Taken(s, t), s.tasks[t].uid, t, other); }
    }
  }

  lemma ClosingPresses(s: State)
    requires Inv(s) && AllPress(s) && !s.closing
    ensures AllPress(Closed(s))
  {
    forall uid ensures Presses(Closed(s), uid) {
      assert StreamOk(s, uid) && Presses(s, uid);
      if uid in s.streams {
        assert s.streams[uid] in s.streams.Values;
        EventsOfMore(s.queues[s.streams[uid]].backlog, EndOfStream);
      }
    }
  }

  lemma PressureKeeps(cfg: Settings, s: State, step: Step)
    requires Inv(s) && AllPress(s) && Enabled(s, step)
    ensures AllPress(Next(cfg, s, step))
  {
    match step
    case Watch(input) => if input.Object? { WatchingPresses(s, input.uid, input.event); }
    case Take(t) => TakingPresses(s, t);
    case Close => ClosingPresses(s);
    case _ =>
      var s' := Next(cfg, s, step);
      assert s'.queues == s.queues && s'.streams.Items <= s.streams.Items;
      forall uid ensures Presses(s', uid) {
        assert Presses(s, uid);
        assert uid in s'.streams ==> (uid, s'.streams[uid]) in s'.streams.Items;
      }
  }

  // ----- Whole runs -----

  /** These steps lead from one state to the other, if each of them is enabled when its turn comes. */
  ghost predicate Leads(cfg: Settings, s0: State, steps: seq<Step>, s: State)
    decreases |steps|
  {
    if steps == [] then s == s0
    else Enabled(s0, steps[0]) && Leads(cfg, Next(cfg, s0, steps[0]), steps[1..], s)
  }

  lemma {:induction false} Always(cfg: Settings, s0: State, steps: seq<Step>, s: State)
    requires Inv(s0) && Leads(cfg, s0, steps, s)
    ensures Inv(s)
    decreases |steps|
  {
    if steps != [] {
      StepKeeps(cfg, s0, steps[0]);
      Always(cfg, Next(cfg, s0, steps[0]), steps[1..], s);
    }
  }

  /** The consistency gate over whole runs, across any number of workers that come and go for the object. */
  lemma ConsistencyGate(cfg: Settings, steps: seq<Step>, s: State, t: nat)
    requires Leads(cfg, INITIAL, steps, s)
    requires t in s.tasks && s.tasks[t].phase == Handling(false) && s.tasks[t].uid in s.last
    ensures s.last[s.tasks[t].uid].arrived || s.last[s.tasks[t].uid].deadline <= s.clock
  {
    Always(cfg, INITIAL, steps, s);
    assert TaskOk(s, t);
  }

  lemma {:induction false} NeverNeedlessly(cfg: Settings, s0: State, steps: seq<Step>, s: State)
    requires Inv(s0) && NoneWaitsNeedlessly(cfg, s0) && Leads(cfg, s0, steps, s)
    ensures Inv(s) && NoneWaitsNeedlessly(cfg, s)
    decreases |steps|
  {
    if steps != [] {
      StepKeeps(cfg, s0, steps[0]);
      WaitingKeeps(cfg, s0, steps[0]);
      NeverNeedlessly(cfg, Next(cfg, s0, steps[0]), steps[1..], s);
    }
  }

  lemma {:induction false} AlwaysPressed(cfg: Settings, s0: State, steps: seq<Step>, s: State)
    requires Inv(s0) && AllPress(s0) && Leads(cfg, s0, steps, s)
    ensures Inv(s) && AllPress(s)
    decreases |steps|
  {
    if steps != [] {
      StepKeeps(cfg, s0, steps[0]);
      PressureKeeps(cfg, s0, steps[0]);
      AlwaysPressed(cfg, Next(cfg, s0, steps[0]), steps[1..], s);
    }
  }

  /** In every run, the sleep in the gate can be interrupted as soon as there are new events of the object,
      and it is never interrupted if there is nothing in the queue. */
  lemma SleepIsInterrupted(cfg: Settings, steps: seq<Step>, s: State, t: nat)
    requires Leads(cfg, INITIAL, steps, s) && t in s.tasks && s.tasks[t].phase.Sleeping?
    ensures Backlog(s, s.tasks[t].uid) != [] ==> Enabled(s, Wake(t, false))
    ensures Enabled(s, Wake(t, false)) ==> s.queues[s.tasks[t].queue].backlog != []
  {
    AlwaysPressed(cfg, INITIAL, steps, s);
    assert TaskOk(s, t) && Presses(s, s.tasks[t].uid);
  }

  /** In every run, once the watching is over, each worker has its end marker after all the events of its object: it
      never waits for anything to come, and leaves when there are no more events. */
  lemma WorkersAreReleased(cfg: Settings, steps: seq<Step>, s: State, t: nat)
    requires Leads(cfg, INITIAL, steps, s) && s.closing && Live(s, t) && !s.tasks[t].phase.Starting?
    ensures s.tasks[t].phase.Waiting? ==> Enabled(s, Take(t))
    ensures s.tasks[t].phase.Waiting? ==>
              (Next(cfg, s, Take(t)).tasks[t].phase.Leaving? <==> Backlog(s, s.tasks[t].uid) == [])
    ensures var q := s.tasks[t].queue; q in s.queues && |s.queues[q].backlog| == |Backlog(s, s.tasks[t].uid)| + 1
  {
    AlwaysPressed(cfg, INITIAL, steps, s);
    assert TaskOk(s, t) && StreamOk(s, s.tasks[t].uid) && Presses(s, s.tasks[t].uid);
    EndedEvents(s.queues[t].backlog);
  }

  lemma {:induction false} EndedEvents(items: seq<Item>)
    requires GoodQueue(items, true) && items != [] && items[|items| - 1].EndOfStream?
    ensures |items| == |Events(items)| + 1
    decreases |items|
  {
    if |items| > 1 {
      assert items[0].Raw?;
      EndedEvents(items[1..]);
    }
  }

  /** Promptness over whole runs: once the version of the last patch has arrived, or if there were no patches at all,
      or these are not waited for by the settings, the worker waits for nothing, and the gate lets the handlers go at
      once. */
  lemma PromptHandling(cfg: Settings, steps: seq<Step>, s: State, t: nat, f: Findings)
    requires Leads(cfg, INITIAL, steps, s) && Live(s, t)
    requires s.tasks[t].uid in s.last && !s.last[s.tasks[t].uid].arrived ==> cfg.consistencyTimeout == 0.0
    ensures s.tasks[t].expected == None && s.tasks[t].deadline == None
    ensures f.cause == Some(false) && f.initiallyEmpty ==> Gate(f, s.tasks[t].deadline, s.clock) == Handling(false)
  {
    NeverNeedlessly(cfg, INITIAL, steps, s);
    assert TaskOk(s, t) && WaitsForLast(cfg, s, t);
  }

  /** Order: nothing received is lost, doubled, or reordered for the object, whichever workers have served it. */
  lemma PerObjectOrder(cfg: Settings, steps: seq<Step>, s: State, uid: string)
    requires Leads(cfg, INITIAL, steps, s)
    ensures At(s.received, uid) == At(s.handed, uid) + Backlog(s, uid)
    ensures uid !in s.streams ==> At(s.received, uid) == At(s.handed, uid)
  {
    Always(cfg, INITIAL, steps, s);
    assert StreamOk(s, uid);
  }

  predicate InProcessor(phase: Phase) { phase.Processing? || phase.Sleeping? || phase.Handling? || phase.Finishing? }

  /** Exclusivity: there are no two calls of the processor for the same object at the same time. */
  lemma PerObjectExclusivity(cfg: Settings, steps: seq<Step>, s: State, t: nat, u: nat)
    requires Leads(cfg, INITIAL, steps, s)
    requires t in s.tasks && u in s.tasks && s.tasks[t].uid == s.tasks[u].uid
    requires InProcessor(s.tasks[t].phase) && InProcessor(s.tasks[u].phase)
    ensures t == u
  {
    Always(cfg, INITIAL, steps, s);
    assert TaskOk(s, t) && TaskOk(s, u);
  }

  /** No stream is left without a worker, and no worker is left without its stream. */
  lemma EveryStreamIsServed(cfg: Settings, steps: seq<Step>, s: State)
    requires Leads(cfg, INITIAL, steps, s)
    ensures forall uid :: uid in s.streams ==>
              exists t :: t in s.tasks && s.tasks[t].uid == uid && s.tasks[t].phase != Leaving
    ensures forall t :: t in s.tasks ==> s.tasks[t].phase != Failed
  {
    Always(cfg, INITIAL, steps, s);
    forall uid | uid in s.streams
      ensures exists t :: t in s.tasks && s.tasks[t].uid == uid && s.tasks[t].phase != Leaving
    {
      assert StreamOk(s, uid);
      assert Live(s, s.streams[uid]);
    }
    forall t | t in s.tasks ensures s.tasks[t].phase != Failed { assert TaskOk(s, t); }
  }
}

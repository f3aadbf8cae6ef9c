/** The watcher and its workers as they change their shared streams: kopf/_core/reactor/queueing.py.
    Each method is the code between two points where the coroutine gives the control away. */
module Reactors {
  import opened Wrappers
  import opened Queueing

  class Reactor {
    const cfg: Settings
    var clock: real
    var closing: bool
    var next: nat
    var streams: map<string, nat>
    var queues: map<nat, Queue>
    var tasks: map<nat, Task>
    ghost var received: map<string, seq<Event>>
    ghost var handed: map<string, seq<Event>>
    ghost var last: map<string, Patched>

    ghost function Now(): State
      reads this
    {
      State(clock, closing, next, streams, queues, tasks, received, handed, last)
    }

    ghost predicate Valid()
      reads this
    {
      Inv(Now())
    }

    constructor (cfg: Settings)
      ensures Now() == INITIAL && Valid() && this.cfg == cfg
    {
      this.cfg, clock, closing, next := cfg, 0.0, false, 0;
      streams, queues, tasks := map[], map[], map[];
      received, handed, last := map[], map[], map[];
    }

    method Advance(to: real)
      requires Valid() && clock <= to
      modifies this
      ensures Valid() && Now() == Next(cfg, old(Now()), Tick(to))
      ensures forall uid :: old(Consistent(Now(), uid)) ==> Consistent(Now(), uid)
    {
      StepKeeps(cfg, Now(), Tick(to));
      clock := to;
    }

    /** One turn of the watcher: the event waits for the worker of its object, and no other object notices it. */
    method Multiplex(input: Input)
      requires Valid() && !closing
      modifies this
      ensures Valid() && Now() == Next(cfg, old(Now()), Watch(input))
      ensures input.Bookmark? ==> Now() == old(Now())
      ensures input.Object? ==>
        Queued(old(Now()), Now(), input.uid, input.event) && OthersUntouched(old(Now()), Now(), input.uid)
    {
      ghost var s := Now();
      StepKeeps(cfg, s, Watch(input));
      StreamsAreSeparate(s);
      if input.Object? {
        if input.uid in streams {
          FeedQueues(s, input.uid, input.event);
        } else {
          OpenQueues(s, input.uid, input.event);
        }
      }
      Dispatch(input);
    }

    method Dispatch(input: Input)
      requires !closing && streams.Values <= queues.Keys
      modifies this
      ensures Now() == Next(cfg, old(Now()), Watch(input))
    {
      if input.Bookmark? {
        return;
      }
      var uid, event := input.uid, input.event;
      received := received[uid := At(received, uid) + [event]];
      if uid in streams {
        queues := queues[streams[uid] := Queue(queues[streams[uid]].backlog + [Raw(event)], true)];
      } else {
        OpenStream(uid, event);
      }
    }

    /** A new stream with its own queue for a new object, and a new worker for it. */
    method OpenStream(uid: string, event: Event)
      modifies this`streams, this`queues, this`tasks, this`next
      ensures Now() == Opened(old(Now()), uid, event)
    {
      ghost var before := queues;
      streams := streams[uid := next];
      queues := queues[next := Queue([], true)];
      assert [] + [Raw(event)] == [Raw(event)];
      queues := queues[next := queues[next].(backlog := queues[next].backlog + [Raw(event)])];
      assert queues == before[next := Queue([Raw(event)], true)];
      tasks := tasks[next := Task(uid, 0, Starting, None, None)];
      next := next + 1;
    }

    /** The watcher is over: it tells all the workers that there will be no more events; no event is lost by that. */
    method CloseStreams()
      requires Valid() && !closing
      modifies this
      ensures Valid() && Now() == Next(cfg, old(Now()), Close)
      ensures AllUntouched(old(Now()), Now())
    {
      StepKeeps(cfg, Now(), Close);
      StreamsAreSeparate(Now());
      CloseIsUnnoticed(Now());
      PutEnds();
    }

    method PutEnds()
      requires !closing && streams.Values <= queues.Keys
      modifies this
      ensures Now() == Next(cfg, old(Now()), Close)
    {
      ghost var before := queues;
      closing := true;
      var left := streams.Values;
      while left != {}
        invariant left <= streams.Values
        invariant Now() == old(Now()).(closing := true, queues := queues)
        invariant queues.Keys == before.Keys
        invariant forall q :: q in queues ==>
                    queues[q] == if q in streams.Values && q !in left then WithEnd(before[q]) else before[q]
      {
        var q :| q in left;
        queues := queues[q := WithEnd(queues[q])];
        left := left - {q};
      }
      assert queues == Closed(old(Now())).queues;
    }

    /** All the streams can always be closed: their queues are there, and are not shared by several objects. */
    static lemma StreamsAreSeparate(s: State)
      requires Inv(s)
      ensures s.streams.Values <= s.queues.Keys
      ensures forall uid, other :: uid in s.streams && other in s.streams && uid != other ==>
        s.streams[uid] != s.streams[other]
    {
      forall uid | uid in s.streams
        ensures s.streams[uid] in s.queues && s.streams[uid] in s.tasks && s.tasks[s.streams[uid]].uid == uid
      {
        assert StreamOk(s, uid);
      }
    }

    /** The task of the worker gets the control for the first time, and goes for the first event. */
    method StartWorker(t: nat)
      requires Valid() && Enabled(Now(), Start(t))
      modifies this
      ensures Valid() && Now() == Next(cfg, old(Now()), Start(t))
      ensures WaitsAsLong(cfg, clock, tasks[t]) && tasks[t].expected == None
      ensures tasks[t].phase.Waiting? && tasks[t].queue in queues
        && queues[tasks[t].queue].backlog == old(queues[t].backlog)
    {
      assert TaskOk(Now(), t) && StreamOk(Now(), tasks[t].uid);
      StepKeeps(cfg, Now(), Start(t));
      var task := tasks[t];
      tasks := tasks[t := Task(task.uid, streams[task.uid], Waiting(Until(cfg, clock, None)), None, None)];
    }

    /** The worker wakes up: the oldest of the waiting events is handed over to the processor, or the worker leaves. */
    method TakeItem(t: nat)
      requires Valid() && Enabled(Now(), Take(t))
      modifies this
      ensures Valid() && Now() == Next(cfg, old(Now()), Take(t))
      ensures HandsOver(old(Now()), Now(), old(tasks[t].uid), t)
        && OthersUntouched(old(Now()), Now(), old(tasks[t].uid))
    {
      StepKeeps(cfg, Now(), Take(t));
      TakeHandsOver(Now(), t);
      TakeIsLocal(Now(), t);
      GetItem(t);
    }

    /** The queue gives an event, or the end of the stream. */
    method GetItem(t: nat)
      requires Enabled(Now(), Take(t))
      modifies this
      ensures Now() == Next(cfg, old(Now()), Take(t))
    {
      var task := tasks[t];
      var queue := queues[task.queue];
      var item, rest := queue.backlog[0], queue.backlog[1..];
      if item.EndOfStream? {
        queues := queues[task.queue := Queue(rest, queue.pressure)];
        GarbageCollect(t);
      } else {
        queues := queues[task.queue := Queue(rest, queue.pressure && rest != [])];
        Notice(t, item.event);
      }
    }

    /** If this is the patched version that was expected, the object is consistent again. */
    method Notice(t: nat, event: Event)
      requires t in tasks
      modifies this`tasks, this`handed, this`last
      ensures Now() == Noticed(old(Now()), t, event)
    {
      var task := tasks[t];
      handed := handed[task.uid := At(handed, task.uid) + [event]];
      last := Seen(last, task.uid, event);
      if task.expected.Some? && task.expected == event.version {
        task := task.(expected := None, deadline := None);
      }
      tasks := tasks[t := task.(phase := Processing)];
    }

    /** The worker has waited for too long: it retires if and only if there is really nothing to do, not even to wait
        for the last patch to be seen. */
    method GiveUp(t: nat)
      requires Valid() && Enabled(Now(), TimeOut(t))
      modifies this
      ensures Valid() && Now() == Next(cfg, old(Now()), TimeOut(t))
      ensures WaitsOrLeaves(cfg, old(Now()), Now(), old(tasks[t].uid), t)
      ensures old(tasks[t].uid) !in streams <==> old(queues[t].backlog) == []
      ensures OthersUntouched(old(Now()), Now(), old(tasks[t].uid))
    {
      assert TaskOk(Now(), t) && StreamOk(Now(), tasks[t].uid);
      StepKeeps(cfg, Now(), TimeOut(t));
      TimeOutWaitsOrLeaves(cfg, Now(), t);
      RetireOrWait(t);
    }

    method RetireOrWait(t: nat)
      requires Enabled(Now(), TimeOut(t))
      modifies this
      ensures Now() == Next(cfg, old(Now()), TimeOut(t))
    {
      var task := tasks[t];
      if queues[task.queue].backlog == [] {
        GarbageCollect(t);
      } else {
        tasks := tasks[t := task.(phase := Waiting(Until(cfg, clock, task.deadline)))];
      }
    }

    method GarbageCollect(t: nat)
      requires t in tasks
      modifies this`streams, this`tasks
      ensures Now() == Left(old(Now()), t)
    {
      streams := streams - {tasks[t].uid};
      tasks := tasks[t := tasks[t].(phase := Leaving)];
    }

    /** The consistency gate inside of the processor: the handlers of a non-GONE cause go only if the last patch
        is seen or given up. */
    method PassGate(t: nat, found: Findings)
      requires Valid() && Enabled(Now(), Decide(t, found))
      modifies this
      ensures Valid() && Now() == Next(cfg, old(Now()), Decide(t, found))
      ensures t in tasks && MayHandle(Now(), t) && AllUntouched(old(Now()), Now())
      ensures tasks[t].phase.Sleeping? && !Consistent(Now(), tasks[t].uid) ==>
        tasks[t].phase.until == last[tasks[t].uid].deadline
    {
      assert TaskOk(Now(), t);
      StepKeeps(cfg, Now(), Decide(t, found));
      DecideIsSafe(Now(), t, found);
      Gated(t, found);
    }

    method Gated(t: nat, found: Findings)
      requires Enabled(Now(), Decide(t, found))
      modifies this
      ensures Now() == Next(cfg, old(Now()), Decide(t, found))
    {
      var deadline := tasks[t].deadline;
      var required := found.cause.Some?;
      var achieved := deadline.None?;
      if required && found.cause.value {
        achieved := true;
      }
      if required && !achieved && found.empty && deadline.Some? && deadline.value != 0.0 {
        if deadline.value - clock > 0.0 {
          tasks := tasks[t := tasks[t].(phase := Sleeping(deadline.value, found.initiallyEmpty))];
          return;
        }
        achieved := true;
      }
      achieved := achieved && found.initiallyEmpty;
      tasks := tasks[t := tasks[t].(phase := if required && achieved then Handling(found.cause.value) else Finishing)];
    }

    /** The sleep in the gate is over: the handlers go only if it is by time, and not by the new events;
        the last patch is given up by then. */
    method WakeUp(t: nat, timedOut: bool)
      requires Valid() && Enabled(Now(), Wake(t, timedOut))
      modifies this
      ensures Valid() && Now() == Next(cfg, old(Now()), Wake(t, timedOut))
      ensures t in tasks && (tasks[t].phase.Handling? || tasks[t].phase == Finishing)
      ensures tasks[t].phase.Handling? ==> timedOut && Consistent(Now(), tasks[t].uid)
      ensures AllUntouched(old(Now()), Now())
    {
      StepKeeps(cfg, Now(), Wake(t, timedOut));
      WakeIsSafe(Now(), t, timedOut);
      var achieved := timedOut && tasks[t].phase.initiallyEmpty;
      tasks := tasks[t := tasks[t].(phase := if achieved then Handling(false) else Finishing)];
    }

    /** The processor is over: if it has patched the object, the object is inconsistent for the timeout, and the worker
        knows the version to be seen, and stays for that long. */
    method FinishEvent(t: nat, version: Option<string>)
      requires Valid() && Enabled(Now(), Return(t, version))
      modifies this
      ensures Valid() && Now() == Next(cfg, old(Now()), Return(t, version))
      ensures Remembers(cfg, old(Now()), Now(), old(tasks[t].uid), t, version)
      ensures OthersUntouched(old(Now()), Now(), old(tasks[t].uid))
    {
      StepKeeps(cfg, Now(), Return(t, version));
      ReturnRemembers(cfg, Now(), t, version);
      Remember(t, version);
    }

    method Remember(t: nat, version: Option<string>)
      requires Enabled(Now(), Return(t, version))
      modifies this
      ensures Now() == Next(cfg, old(Now()), Return(t, version))
    {
      var task := tasks[t];
      if version.Some? && cfg.consistencyTimeout != 0.0 {
        task := task.(expected := version, deadline := Some(clock + cfg.consistencyTimeout));
      }
      if version.Some? {
        last := last[task.uid := Patched(version.value, clock + cfg.consistencyTimeout, false)];
      }
      tasks := tasks[t := task.(phase := Waiting(Until(cfg, clock, task.deadline)))];
    }

    /** The task of a worker that has left is over: no object notices that, and no stream is left without its worker. */
    method EndWorker(t: nat)
      requires Valid() && Enabled(Now(), End(t))
      modifies this
      ensures Valid() && Now() == Next(cfg, old(Now()), End(t))
      ensures AllUntouched(old(Now()), Now()) && forall u :: Live(Now(), u) <==> old(Live(Now(), u))
      ensures t !in streams.Values
    {
      StepKeeps(cfg, Now(), End(t));
      EndIsUnnoticed(Now(), t);
      tasks := tasks - {t};
    }
  }
}

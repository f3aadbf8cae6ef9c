/** The bounded pool of fire-and-forget tasks: kopf/_cogs/aiokits/aiotasks.py.

    Whatever is done under the condition is done at once, as nobody gives the control away while holding it. */
module Scheduling {
  import opened Wrappers

  /** Jobs are numbered as they are accepted. `woken` is whether the waiter was notified since it went to wait. */
  datatype Waiter = Absent | Waits(woken: bool) | Over

  /** `done` are the tasks that are over, even if it is not reported yet; it is of the event loop rather than of the
      pool. For the specification, `accepted` and `started` are the jobs in their order. */
  datatype Pool = Pool(
    limit: Option<nat>, closed: bool,
    pending: seq<nat>, running: set<nat>, cleaning: seq<nat>, held: Option<nat>,
    spawner: Waiter, closer: Waiter,
    done: set<nat>, accepted: seq<nat>, started: seq<nat>
  )

  function Initial(limit: Option<nat>): Pool {
    Pool(limit, false, [], {}, [], None, Waits(true), Absent, {}, [], [])
  }

  datatype Step =
    | Spawn
    | SpawnerTurn
    | Finish(task: nat)
    | Callback(task: nat)
    | CleanerTake
    | CleanerPing
    | Close
    | CloserTurn

  predicate IsEmpty(p: Pool) { p.pending == [] && p.running == {} }

  predicate CanSpawn(p: Pool) { p.pending != [] && (p.limit.None? || |p.running| < p.limit.value) }

  predicate Enabled(p: Pool, step: Step) {
    match step
    case Spawn => true
    case SpawnerTurn => p.spawner == Waits(true) && !p.closer.Over?
    case Finish(t) => t in p.running && t !in p.done
    case Callback(t) => t in p.running && t in p.done
    case CleanerTake => p.held.None? && p.cleaning != [] && !p.closer.Over?
    case CleanerPing => p.held.Some? && !p.closer.Over?
    case Close => p.closer.Absent?
    case CloserTurn => p.closer == Waits(true)
  }

  function Notified(p: Pool): Pool {
    p.(spawner := Waits(true), closer := if p.closer.Waits? then Waits(true) else p.closer)
  }

  function StartOne(p: Pool): Pool
    requires p.pending != []
  {
    p.(pending := p.pending[1..], running := p.running + {p.pending[0]}, started := p.started + [p.pending[0]])
  }

  /** As many tasks as allowed, and as many coroutines as available. */
  function Refilled(p: Pool): Pool
    decreases |p.pending|
  {
    if CanSpawn(p) then Refilled(StartOne(p)) else p
  }

  function Next(p: Pool, step: Step): Pool
    requires Enabled(p, step)
  {
    match step
    case Spawn =>
      if p.closed then p
      else Notified(p.(pending := p.pending + [|p.accepted|], accepted := p.accepted + [|p.accepted|]))
    case SpawnerTurn => Refilled(p).(spawner := Waits(false))
    case Finish(t) => p.(done := p.done + {t})
    case Callback(t) => p.(running := p.running - {t}, cleaning := p.cleaning + [t])
    case CleanerTake => p.(held := Some(p.cleaning[0]), cleaning := p.cleaning[1..])
    case CleanerPing => Notified(p.(running := p.running - {p.held.value}, held := None))
    case Close => p.(closed := true, closer := Waits(true))
    case CloserTurn => p.(closer := if IsEmpty(p) then Over else Waits(false))
  }

  // ----- What every step keeps -----

  /** A wakeup is on its way: the cleaner has something to clean, and will notify all then. */
  predicate WakeupIsComing(p: Pool) { p.cleaning != [] || p.held.Some? }

  predicate Inv(p: Pool) {
    && p.accepted == p.started + p.pending
    && (forall i :: 0 <= i < |p.accepted| ==> p.accepted[i] == i)
    && (forall t :: t in p.running ==> t in p.started)
    && (forall t :: t in p.done ==> t in p.started)
    && (forall t :: t in p.started ==> t in p.running || t in p.done)
    && (forall t :: t in p.cleaning ==> t in p.done && t !in p.running)
    && (p.held.Some? ==> p.held.value in p.done && p.held.value !in p.running)
    && (p.limit.Some? ==> |p.running| <= p.limit.value)
    && p.spawner.Waits?
    && (p.spawner == Waits(false) && CanSpawn(p) ==> WakeupIsComing(p))
    && (p.closer.Absent? <==> !p.closed)
    && (p.closer == Waits(false) && IsEmpty(p) ==> WakeupIsComing(p))
    && (p.closer.Over? ==> IsEmpty(p))
  }

  /** The refilling starts the oldest ones in their order, and stops only with no capacity or nothing to start. */
  lemma {:induction false} RefilledKeeps(p: Pool)
    requires Inv(p) && p.spawner == Waits(true) && !p.closer.Over?
    ensures Inv(Refilled(p).(spawner := Waits(false)))
    ensures p.running <= Refilled(p).running && p.started <= Refilled(p).started && !CanSpawn(Refilled(p))
    decreases |p.pending|
  {
    if CanSpawn(p) {
      var q := StartOne(p);
      var t := p.pending[0];
      assert t !in p.started by {
        assert p.accepted[|p.started|] == t;
        forall i | 0 <= i < |p.started| ensures p.started[i] != t { assert p.accepted[i] == p.started[i]; }
      }
      assert p.pending == [t] + q.pending;
      assert q.running != {} by { assert t in q.running; }
      assert Inv(q);
      RefilledKeeps(q);
    }
  }

  lemma TasksKeep(p: Pool, step: Step)
    requires Inv(p) && Enabled(p, step) && (step.Finish? || step.Callback?)
    ensures Inv(Next(p, step))
  {
  }

  lemma CleanerKeeps(p: Pool, step: Step)
    requires Inv(p) && Enabled(p, step) && (step.CleanerTake? || step.CleanerPing?)
    ensures Inv(Next(p, step))
  {
    if step.CleanerTake? { assert p.cleaning[0] in p.cleaning; }
  }

  lemma StepKeeps(p: Pool, step: Step)
    requires Inv(p) && Enabled(p, step)
    ensures Inv(Next(p, step))
  {
    match step
    case SpawnerTurn => RefilledKeeps(p);
    case Finish(_) => TasksKeep(p, step);
    case Callback(_) => TasksKeep(p, step);
    case CleanerTake => CleanerKeeps(p, step);
    case CleanerPing => CleanerKeeps(p, step);
    case _ =>
  }

  // ----- Whole runs -----

  ghost predicate Leads(p0: Pool, steps: seq<Step>, p: Pool)
    decreases |steps|
  {
    if steps == [] then p == p0
    else Enabled(p0, steps[0]) && Leads(Next(p0, steps[0]), steps[1..], p)
  }

  lemma {:induction false} Always(p0: Pool, steps: seq<Step>, p: Pool)
    requires Inv(p0) && Leads(p0, steps, p)
    ensures Inv(p) && p.limit == p0.limit
    ensures p0.closer.Over? ==> p.closer.Over? && p.accepted == p0.accepted
    decreases |steps|
  {
    if steps != [] {
      StepKeeps(p0, steps[0]);
      StepIsSteady(p0, steps[0]);
      Always(Next(p0, steps[0]), steps[1..], p);
    }
  }

  lemma {:induction false} RefilledIsSteady(p: Pool)
    ensures Refilled(p).limit == p.limit && Refilled(p).closer == p.closer && Refilled(p).accepted == p.accepted
    ensures Refilled(p).done == p.done && Refilled(p).closed == p.closed
    decreases |p.pending|
  {
    if CanSpawn(p) { RefilledIsSteady(StartOne(p)); }
  }

  lemma StepIsSteady(p: Pool, step: Step)
    requires Inv(p) && Enabled(p, step)
    ensures Next(p, step).limit == p.limit
    ensures p.closer.Over? ==> Next(p, step).closer.Over? && Next(p, step).accepted == p.accepted
  {
    RefilledIsSteady(p);
  }

  /** The tasks that are started but are not over. */
  function Unfinished(p: Pool): set<nat> {
    set t | t in p.started && t !in p.done
  }

  /** The limit is kept; nothing accepted is lost; the tasks are started in the order in which they were accepted. */
  lemma PoolIsBounded(limit: Option<nat>, steps: seq<Step>, p: Pool)
    requires Leads(Initial(limit), steps, p)
    ensures limit.Some? ==> |Unfinished(p)| <= limit.value
    ensures p.accepted == p.started + p.pending
    ensures forall i, j :: 0 <= i < j < |p.accepted| ==> p.accepted[i] != p.accepted[j]
    ensures forall t :: t in p.started ==> t in Unfinished(p) || t in p.done
  {
    Always(Initial(limit), steps, p);
    Fewer(Unfinished(p), p.running);
  }

  /** Whenever the spawner could start something, or the closing could be over, they are going to be woken up for
      that. */
  lemma NobodyOversleeps(limit: Option<nat>, steps: seq<Step>, p: Pool)
    requires Leads(Initial(limit), steps, p)
    ensures CanSpawn(p) && !p.closer.Over? ==>
      Enabled(p, SpawnerTurn) || Enabled(p, CleanerTake) || Enabled(p, CleanerPing)
    ensures p.closer.Waits? && IsEmpty(p) ==>
      Enabled(p, CloserTurn) || Enabled(p, CleanerTake) || Enabled(p, CleanerPing)
  {
    Always(Initial(limit), steps, p);
  }

  /** Once the closing is over, nothing is pending or running, and nothing ever will be. */
  lemma ClosedIsQuiet(limit: Option<nat>, steps: seq<Step>, p: Pool, more: seq<Step>, q: Pool)
    requires Leads(Initial(limit), steps, p) && p.closer.Over? && Leads(p, more, q)
    ensures q.pending == [] && q.running == {} && Unfinished(q) == {}
    ensures q.started == q.accepted == p.accepted
  {
    Always(Initial(limit), steps, p);
    Always(p, more, q);
  }

  // ----- The scheduler itself -----

  class Scheduler {
    const limit: Option<nat>
    var closed: bool
    var pendingCoros: seq<nat>
    var runningTasks: set<nat>
    var cleaningQueue: seq<nat>
    var held: Option<nat>
    var spawner: Waiter
    var closer: Waiter
    ghost var done: set<nat>
    ghost var accepted: seq<nat>
    ghost var started: seq<nat>
    var count: nat

    ghost function Now(): Pool
      reads this
    {
      Pool(limit, closed, pendingCoros, runningTasks, cleaningQueue, held, spawner, closer, done, accepted, started)
    }

    ghost predicate Valid()
      reads this
    {
      Inv(Now()) && count == |accepted|
    }

    constructor (limit: Option<nat>)
      ensures Valid() && Now() == Initial(limit)
    {
      this.limit, closed, pendingCoros, runningTasks, cleaningQueue := limit, false, [], {}, [];
      held, spawner, closer, count := None, Waits(true), Absent, 0;
      done, accepted, started := {}, [], [];
    }

    predicate Spawnable()
      reads this
      ensures Spawnable() <==> CanSpawn(Now())
    {
      pendingCoros != [] && (limit.None? || |runningTasks| < limit.value)
    }

    method NotifyAll()
      modifies this`spawner, this`closer
      ensures Now() == Notified(old(Now()))
    {
      spawner := Waits(true);
      if closer.Waits? {
        closer := Waits(true);
      }
    }

    /** The refused job is not in the pool, and never was. */
    method Add() returns (job: Option<nat>)
      requires Valid()
      modifies this
      ensures Valid() && Now() == Next(old(Now()), Spawn)
      ensures if old(closed) then job == None else job == Some(old(count)) && accepted == old(accepted) + [job.value]
    {
      StepKeeps(Now(), Spawn);
      if closed {
        return None;
      }
      job := Some(count);
      pendingCoros := pendingCoros + [count];
      accepted := accepted + [count];
      count := count + 1;
      NotifyAll();
    }

    method RunSpawner()
      requires Valid() && Enabled(Now(), SpawnerTurn)
      modifies this
      ensures Valid() && Now() == Next(old(Now()), SpawnerTurn)
    {
      StepKeeps(Now(), SpawnerTurn);
      RefilledIsSteady(Now());
      while Spawnable()
        invariant Refilled(Now()) == Refilled(old(Now()))
        invariant count == old(count)
        decreases |pendingCoros|
      {
        var coro := pendingCoros[0];
        pendingCoros := pendingCoros[1..];
        runningTasks := runningTasks + {coro};
        started := started + [coro];
      }
      spawner := Waits(false);
    }

    method FinishTask(task: nat)
      requires Valid() && Enabled(Now(), Finish(task))
      modifies this
      ensures Valid() && Now() == Next(old(Now()), Finish(task))
    {
      StepKeeps(Now(), Finish(task));
      done := done + {task};
    }

    method OnDone(task: nat)
      requires Valid() && Enabled(Now(), Callback(task))
      modifies this
      ensures Valid() && Now() == Next(old(Now()), Callback(task))
    {
      StepKeeps(Now(), Callback(task));
      runningTasks := runningTasks - {task};
      cleaningQueue := cleaningQueue + [task];
    }

    method TakeFinished()
      requires Valid() && Enabled(Now(), CleanerTake)
      modifies this
      ensures Valid() && Now() == Next(old(Now()), CleanerTake)
    {
      StepKeeps(Now(), CleanerTake);
      held := Some(cleaningQueue[0]);
      cleaningQueue := cleaningQueue[1..];
    }

    method PingOthers()
      requires Valid() && Enabled(Now(), CleanerPing)
      modifies this
      ensures Valid() && Now() == Next(old(Now()), CleanerPing)
    {
      StepKeeps(Now(), CleanerPing);
      runningTasks := runningTasks - {held.value};
      held := None;
      NotifyAll();
    }

    method BeginClosing()
      requires Valid() && closer.Absent?
      modifies this
      ensures Valid() && Now() == Next(old(Now()), Step.Close)
    {
      StepKeeps(Now(), Step.Close);
      closed := true;
      closer := Waits(true);
    }

    /** `over` is when `close()` returns. */
    method ContinueClosing() returns (over: bool)
      requires Valid() && Enabled(Now(), CloserTurn)
      modifies this
      ensures Valid() && Now() == Next(old(Now()), CloserTurn)
      ensures over <==> pendingCoros == [] && runningTasks == {}
    {
      StepKeeps(Now(), CloserTurn);
      over := pendingCoros == [] && runningTasks == {};
      closer := if over then Over else Waits(false);
    }
  }
}

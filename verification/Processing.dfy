/** The decisions of one processing cycle about the deletion: kopf/_core/reactor/processing.py. */
module Processing {
  import opened Wrappers
  import opened Causes
  import Trees
  import Diffs
  import Queueing
  import Execution
  import Daemons

  /** What is found for the daemons: whether any of those matching requires the finalizer, and what is to be waited
      for. */
  datatype Spawning = Spawning(needsFinalizer: bool, delays: set<int>)

  /** What is found for the handlers of changes: the states of those selected are as they are after this cycle. */
  datatype Changing = Changing(reason: Reason, needsFinalizer: bool, states: Execution.States)

  /** The consistency: what the gate can see, and whether the sleep in it is over by time, if it comes to that. */
  datatype Consistency = Consistency(initiallyEmpty: bool, empty: bool, deadline: Option<real>, clock: real,
    timesOut: bool)

  datatype Cycle = Cycle(
    kind: EventType, ongoing: bool, blocked: bool,
    spawning: Option<Spawning>, changing: Option<Changing>, consistency: Consistency, now: int
  )

  /** The transformation functions of the finalizers, as they are queued into the patch. */
  datatype Fn = Block | Allow

  datatype Decision = Decision(fns: seq<Fn>, delays: set<int>, handled: bool)

  predicate MustBeBlocked(c: Cycle) {
    (c.spawning.Some? && c.spawning.value.needsFinalizer) || (c.changing.Some? && c.changing.value.needsFinalizer)
  }

  /** What is queued before the handlers; the cycle is dedicated to the finalizer then. */
  function Upfront(c: Cycle): seq<Fn> {
    if MustBeBlocked(c) && !c.blocked && !c.ongoing then [Block]
    else if !MustBeBlocked(c) && c.blocked then [Allow]
    else []
  }

  /** Whether the gate lets the handlers through, possibly after some sleep. */
  predicate Opens(c: Cycle, changing: Changing) {
    var x := c.consistency;
    var found := Queueing.Findings(Some(changing.reason == GONE), x.initiallyEmpty, x.empty && Upfront(c) == []);
    match Queueing.Gate(found, x.deadline, x.clock)
    case Handling(_) => true
    case Sleeping(_, initiallyEmpty) => Queueing.AfterSleep(x.timesOut, initiallyEmpty).Handling?
    case _ => false
  }

  function SpawningDelays(c: Cycle): set<int> {
    if c.spawning.Some? then c.spawning.value.delays else {}
  }

  function ChangingDelays(c: Cycle): set<int> {
    if c.changing.Some? && c.changing.value.reason.ForHandlers()
    then Execution.Delays(c.changing.value.states, c.now) else {}
  }

  function Decide(c: Cycle): Decision {
    var fns := Upfront(c);
    var changing := if fns != [] then None else c.changing;
    if changing.Some? && !Opens(c, changing.value) then Decision(fns, SpawningDelays(c), false)
    else
      var delays := SpawningDelays(c) + if changing.Some? then ChangingDelays(c) else {};
      Decision(if c.kind != DELETED && c.ongoing && c.blocked && delays == {} then fns + [Allow] else fns,
               delays, changing.Some?)
  }

  /** The changes are handled: nothing is done to the finalizer in this cycle, nothing else was going to be patched
      before, and the object is gone, or nothing is waited for, or what was waited for is given up with nothing to be
      patched. */
  predicate IsHandled(c: Cycle) {
    var x := c.consistency;
    && c.changing.Some? && x.initiallyEmpty
    && (MustBeBlocked(c) ==> c.blocked || c.ongoing) && (c.blocked ==> MustBeBlocked(c))
    && (|| c.changing.value.reason == GONE
        || x.deadline.None?
        || (x.deadline.value != 0.0 && x.empty && (x.deadline.value <= x.clock || x.timesOut)))
  }

  /** A moment to wake up for: of some daemon to be waited for; or of some handler that is not finished, if these were
      handled. */
  predicate IsAwaited(c: Cycle, d: int) {
    || (c.spawning.Some? && d in c.spawning.value.delays)
    || (IsHandled(c) && c.changing.value.reason.ForHandlers() && IsAwaitedByHandlers(c.changing.value.states, c.now, d))
  }

  predicate IsAwaitedByHandlers(states: Execution.States, now: int, d: int) {
    exists id :: id in states && states[id].active && !states[id].Finished() && d == Execution.DelayOf(states[id], now)
  }

  /** What the decision comes to besides the finalizer: it is handled exactly if it is to be; the operator wakes up for
      everything that is not over, and for nothing else; and there is nothing to wake up for exactly if all is over. */
  lemma DecisionIsExact(c: Cycle)
    ensures var decision := Decide(c);
            && (decision.handled <==> IsHandled(c))
            && (forall d :: d in decision.delays <==> IsAwaited(c, d))
            && (decision.handled && c.changing.value.reason.ForHandlers() ==>
                  (decision.delays == {} <==> SpawningDelays(c) == {} && Execution.Done(c.changing.value.states)))
  {
    assert Upfront(c) == [] <==> (MustBeBlocked(c) ==> c.blocked || c.ongoing) && (c.blocked ==> MustBeBlocked(c));
    if c.changing.Some? { Execution.DoneExactly(c.changing.value.states, c.now); }
  }

  /** As it goes in the source: the two functions of the finalizer never go together; what is to be blocked, is not
      handled yet; and the object is released if and only if it is due. */
  method ProcessCauses(c: Cycle) returns (decision: Decision)
    ensures decision == Decide(c)
    ensures Block in decision.fns <==> MustBeBlocked(c) && !c.blocked && !c.ongoing
    ensures Block in decision.fns ==> decision.fns == [Block] && !decision.handled
    ensures Classified(c) ==> (Allow in decision.fns <==> IsReleased(c))
    ensures decision.handled <==> IsHandled(c)
    ensures forall d :: d in decision.delays <==> IsAwaited(c, d)
    ensures decision.handled && c.changing.value.reason.ForHandlers() ==>
              (decision.delays == {} <==> SpawningDelays(c) == {} && Execution.Done(c.changing.value.states))
  {
    if Classified(c) { ReleasedExactly(c); }
    DecisionIsExact(c);
    var fns: seq<Fn> := [];
    var changing := c.changing;
    var mustBeBlocked := (c.spawning.Some? && c.spawning.value.needsFinalizer)
      || (c.changing.Some? && c.changing.value.needsFinalizer);
    if mustBeBlocked && !c.blocked && !c.ongoing {
      fns := fns + [Block];
      changing := None;
    }
    if !mustBeBlocked && c.blocked {
      fns := fns + [Allow];
      changing := None;
    }
    var spawningDelays := if c.spawning.Some? then c.spawning.value.delays else {};
    if changing.Some? && !Opens(c, changing.value) {
      return Decision(fns, spawningDelays, false);
    }
    var changingDelays := if changing.Some? && changing.value.reason.ForHandlers()
                          then Execution.Delays(changing.value.states, c.now) else {};
    var delays := spawningDelays + changingDelays;
    if c.kind != DELETED && c.ongoing && c.blocked && delays == {} {
      fns := fns + [Allow];
    }
    return Decision(fns, delays, changing.Some?);
  }

  /** The object that was classified for deletion, and not for anything else. */
  predicate Classified(c: Cycle) {
    c.changing.Some? ==>
      && (c.changing.value.reason == GONE <==> c.kind == DELETED)
      && (c.kind != DELETED && c.ongoing && c.blocked ==> c.changing.value.reason == DELETE)
  }

  /** The classification of the events makes it so. */
  lemma EventsAreClassified(
    c: Cycle, body: Trees.Value, finalizer: string, was: Option<Trees.Value>, diff: set<Diffs.Item>, initial: bool
  )
    requires c.ongoing == DeletionIsOngoing(body) && c.blocked == DeletionIsBlocked(body, finalizer)
    requires c.changing.Some? ==> c.changing.value.reason == DetectReason(c.kind, body, finalizer, was, diff, initial)
    ensures Classified(c)
  {
  }

  predicate IsConsistent(c: Cycle) {
    c.consistency.deadline.None? || c.consistency.deadline.value <= c.consistency.clock || c.consistency.timesOut
  }

  /** Nobody needs the object to be blocked; or it is being deleted, there is nothing to wait for, and the
      state-dependent handlers, if there are any, have got through the gate in this very cycle. */
  predicate IsReleased(c: Cycle) {
    c.blocked &&
    (|| !MustBeBlocked(c)
     || (c.kind != DELETED && c.ongoing && SpawningDelays(c) == {}
         && (c.changing.Some? ==> Opens(c, c.changing.value) && Execution.Done(c.changing.value.states))))
  }

  lemma ReleasedExactly(c: Cycle)
    requires Classified(c)
    ensures Allow in Decide(c).fns <==> IsReleased(c)
  {
    if c.changing.Some? { Execution.DoneExactly(c.changing.value.states, c.now); }
    if !MustBeBlocked(c) && c.blocked { assert Decide(c).fns[0] == Allow; }
  }

  /** The finalizer is settled with one write: if nothing else changes, the cycle after that queues nothing for it. */
  lemma FinalizerSettles(c: Cycle)
    requires Decide(c).fns != []
    ensures Decide(c.(blocked := Block in Decide(c).fns)).fns == []
  {
    var fns := Decide(c).fns;
    assert fns[0] == Block || fns[0] == Allow;
    if MustBeBlocked(c) && !c.blocked && !c.ongoing { assert fns[0] == Block; }
  }

  /** While somebody needs the object, its removal is queued only when all the selected handlers are over in a
      consistent state, and there are no daemons to wait for. */
  lemma DeletionSafety(c: Cycle)
    requires Classified(c) && MustBeBlocked(c) && Allow in Decide(c).fns
    ensures c.kind != DELETED && c.ongoing && c.blocked && SpawningDelays(c) == {}
    ensures c.changing.Some? ==> Decide(c).handled && IsConsistent(c) && c.consistency.initiallyEmpty
    ensures c.changing.Some? ==> forall id :: id in c.changing.value.states && c.changing.value.states[id].active ==>
              c.changing.value.states[id].Finished()
  {
    ReleasedExactly(c);
  }

  /** The removal is queued in an inconsistent state exactly if nobody needs the object; or if it is being deleted with
      no state-dependent handlers for it, just with daemons, none of which is to be waited for. */
  lemma InconsistentReleaseExactly(c: Cycle)
    requires Classified(c)
    ensures Allow in Decide(c).fns && !IsConsistent(c) <==>
              && !IsConsistent(c) && c.blocked
              && (!MustBeBlocked(c) || (c.kind != DELETED && c.ongoing && c.changing.None? && SpawningDelays(c) == {}))
    ensures Allow in Decide(c).fns && !IsConsistent(c) && MustBeBlocked(c) ==>
              c.spawning.Some? && c.spawning.value.needsFinalizer
  {
    ReleasedExactly(c);
    if MustBeBlocked(c) && Allow in Decide(c).fns { DeletionSafety(c); }
  }

  lemma DaemonsAreReleasedInconsistently(deadline: real, clock: real, now: int)
    requires clock < deadline
    ensures var c := Cycle(MODIFIED, true, true, Some(Spawning(true, {})), None,
                           Consistency(true, true, Some(deadline), clock, false), now);
            Classified(c) && MustBeBlocked(c) && !IsConsistent(c) && Allow in Decide(c).fns
  {
    var c := Cycle(MODIFIED, true, true, Some(Spawning(true, {})), None,
                   Consistency(true, true, Some(deadline), clock, false), now);
    assert Decide(c).fns == [Allow];
  }

  predicate NoneAlive(daemons: map<string, Daemons.Daemon>) {
    forall id :: id in daemons ==> !daemons[id].alive
  }

  /** The operator wakes up for the next check of each of the daemons that needs it. */
  predicate IsAwakenedFor(
    daemons: map<string, Daemons.Daemon>, now: int, moments: string -> Daemons.Moment, polling: int, delays: set<int>
  ) {
    forall id :: id in daemons ==>
      var delay := Daemons.DelayFor(daemons[id], Daemons.RESOURCE_DELETED, now, moments(id), polling);
      delay.Some? ==> delay.value in delays
  }

  lemma DelaysAreKept(
    c: Cycle, stopping: seq<int>, daemons: map<string, Daemons.Daemon>, moments: string -> Daemons.Moment, polling: int
  )
    requires c.spawning.Some? && c.spawning.value.delays == set d | d in stopping
    requires Daemons.IsOfChecks(stopping, daemons, daemons.Keys, Daemons.RESOURCE_DELETED, c.now, moments, polling)
    ensures IsAwakenedFor(daemons, c.now, moments, polling, Decide(c).delays)
  {
    forall id | id in daemons
      ensures var delay := Daemons.DelayFor(daemons[id], Daemons.RESOURCE_DELETED, c.now, moments(id), polling);
              delay.Some? ==> delay.value in Decide(c).delays
    {
      var delay := Daemons.DelayFor(daemons[id], Daemons.RESOURCE_DELETED, c.now, moments(id), polling);
      if delay.Some? {
        assert delay.value in stopping;
        assert delay.value in SpawningDelays(c);
      }
    }
  }

  /** The daemons of an object under deletion are asked to stop, and the cycle is decided with what is to be waited
      for. */
  method ProcessDeletion(
    c: Cycle, memory: Daemons.DaemonsMemory, moments: string -> Daemons.Moment, polling: int
  ) returns (decision: Decision)
    requires Classified(c) && c.ongoing && c.spawning.Some? && memory.Valid()
    modifies memory`daemons
    ensures memory.Valid() && memory.daemons.Keys == old(memory.daemons).Keys
    ensures MustBeBlocked(c) && Allow in decision.fns ==>
              && (forall id :: id in memory.daemons ==>
                    !memory.daemons[id].alive || Daemons.IsAbandoned(old(memory.daemons)[id], c.now))
              && (c.changing.Some? ==> decision.handled && IsConsistent(c) && Execution.Done(c.changing.value.states))
    ensures MustBeBlocked(c) && c.blocked && c.kind != DELETED && c.changing.None? && NoneAlive(memory.daemons) ==>
              Allow in decision.fns
    ensures Daemons.AllChecked(old(memory.daemons), memory.daemons, old(memory.daemons).Keys, Daemons.RESOURCE_DELETED,
                               c.now, moments, polling)
    ensures IsAwakenedFor(old(memory.daemons), c.now, moments, polling, decision.delays)
  {
    var stopping := memory.StopDaemons(memory.daemons.Keys, Daemons.RESOURCE_DELETED, c.now, moments, polling);
    var delays := set d | d in stopping;
    assert delays == {} <==> stopping == [] by { if stopping != [] { assert stopping[0] in delays; } }
    var c' := c.(spawning := Some(c.spawning.value.(delays := delays)));
    decision := ProcessCauses(c');
    ReleasedExactly(c');
    if MustBeBlocked(c') && Allow in decision.fns { DeletionSafety(c'); }
    DelaysAreKept(c', stopping, old(memory.daemons), moments, polling);
  }
}

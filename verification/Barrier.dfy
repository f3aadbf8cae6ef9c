/** The startup barrier: no handlers go until all resources are indexed. */
module Barrier {
  import opened Wrappers

  // kopf/_core/reactor/orchestration.py spawns the watchers, kopf/_core/reactor/queueing.py makes a toggle for an
  // object, kopf/_core/reactor/processing.py drops it and waits for the others. All toggles of the barrier are "off"
  // until dropped, so that the set of them is "on" when it is empty.

  datatype Toggle = Blocker(n: nat) | Kind(watcher: nat) | OfObject(watcher: nat, uid: string, n: nat)

  /** `minds` is whether its local `operator_indexed` is still there; it is lost when the readiness is once noticed.
      `pending` is the object for which it is now making a toggle. */
  datatype Watcher = Watcher(indexed: bool, minds: bool, pending: Option<string>, seen: set<nat>)

  datatype Place = Queued | Busy | Indexed | Blocked | Through(seen: set<nat>) | Idle

  datatype Worker = Worker(watcher: nat, uid: string, toggle: Option<Toggle>, minds: bool, seen: set<nat>, place: Place)

  /** For the specification: `passed` are the watchers that have seen the end of the listing, `listed` are the objects
      met before that, `indexed` are the objects that went through the indexing. */
  datatype State = State(
    limit: Option<nat>, next: nat, toggles: set<Toggle>, blocker: Option<nat>,
    watchers: map<nat, Watcher>, workers: map<nat, Worker>,
    passed: set<nat>, listed: set<(nat, string)>, indexed: set<(nat, string)>
  )

  function Initial(limit: Option<nat>): State {
    State(limit, 0, {}, None, map[], map[], {}, {}, {})
  }

  datatype Step =
    | Block
    | Spawn(isIndexed: bool)
    | Unblock
    | Stop(watcher: nat)
    | Meet(watcher: nat, uid: string)
    | Open(watcher: nat)
    | EndListing(watcher: nat)
    | Start(worker: nat)
    | Index(worker: nat)
    | Skip(worker: nat)
    | DropOwn(worker: nat)
    | Pass(worker: nat)
    | Finish(worker: nat)
    | More(worker: nat)
    | Retire(worker: nat)

  predicate IsOn(s: State) { s.toggles == {} }

  predicate HasWorker(s: State, watcher: nat, uid: string) {
    exists k :: k in s.workers && s.workers[k].watcher == watcher && s.workers[k].uid == uid
  }

  function Running(s: State, watcher: nat): set<nat> {
    set k | k in s.workers && s.workers[k].watcher == watcher && s.workers[k].place != Queued
  }

  /** The pool of the watcher's workers has no place for one more. */
  predicate Full(s: State, watcher: nat) { s.limit.Some? && |Running(s, watcher)| >= s.limit.value }

  predicate At(s: State, k: nat, place: Place) { k in s.workers && s.workers[k].place == place }

  /** Those of the same pool that were opened earlier, and still wait for a place; the numbers are given in the order of
      opening. */
  function Older(s: State, k: nat): set<nat>
    requires k in s.workers
  {
    set j | j in s.workers && j < k && s.workers[j].place == Queued && s.workers[j].watcher == s.workers[k].watcher
  }

  predicate Enabled(s: State, step: Step) {
    match step
    case Block => s.blocker.None?
    case Spawn(_) => s.blocker.Some?
    case Unblock => s.blocker.Some?
    case Stop(w) => w in s.watchers
    case Meet(w, _) => w in s.watchers && s.watchers[w].pending.None?
    case Open(w) => w in s.watchers && s.watchers[w].pending.Some?
    case EndListing(w) => w in s.watchers && s.watchers[w].pending.None?
    case Start(k) => At(s, k, Queued) && !Full(s, s.workers[k].watcher) && Older(s, k) == {}
    case Index(k) => At(s, k, Busy)
    case Skip(k) => At(s, k, Busy)
    case DropOwn(k) => At(s, k, Indexed)
    case Pass(k) => At(s, k, Blocked) && (s.workers[k].minds ==> IsOn(s))
    case Finish(k) => k in s.workers && s.workers[k].place.Through?
    case More(k) => At(s, k, Idle)
    case Retire(k) => At(s, k, Idle)
  }

  /** The watchers that are to be ready now. */
  function ToBeReady(s: State): set<nat> {
    set w | w in s.watchers && s.watchers[w].indexed
  }

  function Move(s: State, k: nat, place: Place): State
    requires k in s.workers
  {
    s.(workers := s.workers[k := s.workers[k].(place := place)])
  }

  /** A new object blocks the readiness, but not when the readiness was already achieved once. */
  function Met(s: State, w: nat, uid: string): State
    requires w in s.watchers
  {
    var s' := if w in s.passed then s else s.(listed := s.listed + {(w, uid)});
    var watcher := s.watchers[w];
    if HasWorker(s, w, uid) then s'
    else if watcher.minds && IsOn(s) then
      s'.(watchers := s.watchers[w := watcher.(minds := false, seen := ToBeReady(s), pending := Some(uid))])
    else s'.(watchers := s.watchers[w := watcher.(pending := Some(uid))])
  }

  function Opened(s: State, w: nat): State
    requires w in s.watchers && s.watchers[w].pending.Some?
  {
    var watcher := s.watchers[w];
    var uid := watcher.pending.value;
    var toggle := if watcher.minds && watcher.indexed then Some(OfObject(w, uid, s.next)) else None;
    s.(next := s.next + 1,
       watchers := s.watchers[w := watcher.(pending := None)],
       workers := s.workers[s.next := Worker(w, uid, toggle, watcher.minds, watcher.seen, Queued)],
       toggles := if toggle.Some? then s.toggles + {toggle.value} else s.toggles)
  }

  function Next(s: State, step: Step): State
    requires Enabled(s, step)
  {
    match step
    case Block => s.(next := s.next + 1, blocker := Some(s.next), toggles := s.toggles + {Blocker(s.next)})
    case Spawn(isIndexed) =>
      s.(next := s.next + 1, watchers := s.watchers[s.next := Watcher(isIndexed, true, None, {})],
         toggles := if isIndexed then s.toggles + {Kind(s.next)} else s.toggles)
    case Unblock => s.(blocker := None, toggles := s.toggles - {Blocker(s.blocker.value)})
    case Stop(w) =>
      s.(watchers := s.watchers - {w},
         workers := map k | k in s.workers && s.workers[k].watcher != w :: s.workers[k])
    case Meet(w, uid) => Met(s, w, uid)
    case Open(w) => Opened(s, w)
    case EndListing(w) =>
      s.(passed := s.passed + {w},
         toggles := if s.watchers[w].minds && s.watchers[w].indexed then s.toggles - {Kind(w)} else s.toggles)
    case Start(k) => Move(s, k, Busy)
    case Index(k) => Move(s, k, Indexed).(indexed := s.indexed + {(s.workers[k].watcher, s.workers[k].uid)})
    case Skip(k) => Move(s, k, Idle)
    case DropOwn(k) =>
      var worker := s.workers[k];
      Move(s, k, Blocked).(toggles :=
        if worker.minds && worker.toggle.Some? then s.toggles - {worker.toggle.value} else s.toggles)
    case Pass(k) => Move(s, k, Through(if s.workers[k].minds then ToBeReady(s) else s.workers[k].seen))
    case Finish(k) => Move(s, k, Idle)
    case More(k) => Move(s, k, Busy)
    case Retire(k) => s.(workers := s.workers - {k})
  }

  // ----- What every step keeps -----

  /** The watcher has listed its resource, and all that was listed is indexed. */
  ghost predicate Complete(s: State, w: nat) {
    w in s.passed && forall uid :: (w, uid) in s.listed ==> (w, uid) in s.indexed
  }

  ghost predicate AllComplete(s: State, ws: set<nat>) { forall w :: w in ws ==> Complete(s, w) }

  ghost predicate Guarded(s: State, w: nat, uid: string) { exists n :: OfObject(w, uid, n) in s.toggles }

  /** What was listed but is not indexed yet holds a toggle, or is about to make it. */
  ghost predicate ObjectOk(s: State, w: nat, uid: string) {
    || (w, uid) in s.indexed
    || Guarded(s, w, uid)
    || (w !in s.passed && w in s.watchers && s.watchers[w].pending == Some(uid))
    || w !in s.watchers
    || !s.watchers[w].indexed
  }

  ghost predicate WatcherOk(s: State, w: nat)
    requires w in s.watchers
  {
    var watcher := s.watchers[w];
    && w < s.next
    && (watcher.indexed && w !in s.passed ==> watcher.minds && Kind(w) in s.toggles)
    && (!watcher.minds ==> AllComplete(s, watcher.seen))
    && (watcher.pending.Some? ==> w in s.passed || (w, watcher.pending.value) in s.listed)
  }

  ghost predicate WorkerOk(s: State, k: nat)
    requires k in s.workers
  {
    var worker := s.workers[k];
    && k < s.next
    && (worker.watcher in s.passed || (worker.watcher, worker.uid) in s.listed)
    && FitsToggle(s, k)
    && (worker.place == Indexed ==> (worker.watcher, worker.uid) in s.indexed)
    && KnowsReady(s, worker)
  }

  /** The toggle of the worker is its own, and is dropped before the worker waits for the others. */
  predicate FitsToggle(s: State, k: nat)
    requires k in s.workers
  {
    var worker := s.workers[k];
    && (worker.toggle.Some? ==> worker.toggle.value == OfObject(worker.watcher, worker.uid, k) && worker.minds)
    && (worker.place == Blocked || worker.place.Through? ==> worker.toggle.None? || worker.toggle.value !in s.toggles)
  }

  /** The readiness that the worker has noticed, or has got from its watcher. */
  ghost predicate KnowsReady(s: State, worker: Worker) {
    && (!worker.minds ==> AllComplete(s, worker.seen))
    && (worker.place.Through? ==> AllComplete(s, worker.place.seen))
  }

  predicate ToggleOk(s: State, toggle: Toggle) {
    match toggle
    case Blocker(n) => s.blocker == Some(n)
    case Kind(w) => w < s.next && (w in s.watchers ==> s.watchers[w].indexed && s.watchers[w].minds)
    case OfObject(w, uid, n) =>
      n < s.next && (n in s.workers ==> s.workers[n].watcher == w && s.workers[n].toggle == Some(toggle))
  }

  ghost predicate Inv(s: State) {
    && (forall toggle :: toggle in s.toggles ==> ToggleOk(s, toggle))
    && (forall w, uid :: (w, uid) in s.listed ==> ObjectOk(s, w, uid))
    && (forall w :: w in s.watchers ==> WatcherOk(s, w))
    && (forall k :: k in s.workers ==> WorkerOk(s, k))
    && (s.blocker.Some? ==> Blocker(s.blocker.value) in s.toggles)
    && (forall w :: w in s.passed ==> w < s.next)
    && (forall w, uid :: (w, uid) in s.listed ==> w < s.next)
  }

  /** The barrier itself: when the set is on, everything is ready. */
  lemma OnMeansReady(s: State)
    requires Inv(s) && IsOn(s)
    ensures AllComplete(s, ToBeReady(s))
  {
    forall w | w in ToBeReady(s) ensures Complete(s, w) {
      assert WatcherOk(s, w);
      forall uid | (w, uid) in s.listed ensures (w, uid) in s.indexed { assert ObjectOk(s, w, uid); }
    }
  }

  /** Readiness is never lost by those that have it. */
  lemma CompletenessStays(s: State, step: Step, ws: set<nat>)
    requires Enabled(s, step) && AllComplete(s, ws)
    ensures AllComplete(Next(s, step), ws)
  {
    forall w | w in ws ensures Complete(Next(s, step), w) { assert Complete(s, w); }
  }

  lemma WatchersStay(s: State, step: Step, w: nat)
    requires Inv(s) && Enabled(s, step) && w in Next(s, step).watchers
    ensures WatcherOk(Next(s, step), w)
  {
    if w in s.watchers {
      assert WatcherOk(s, w);
      if !s.watchers[w].minds { CompletenessStays(s, step, s.watchers[w].seen); }
      if IsOn(s) {
        OnMeansReady(s);
        CompletenessStays(s, step, ToBeReady(s));
      }
    }
  }

  lemma WorkersStay(s: State, step: Step, k: nat)
    requires Enabled(s, step) && k in Next(s, step).workers
    requires k in s.workers && WorkerOk(s, k)
    requires IsOn(s) ==> AllComplete(s, ToBeReady(s))
    ensures WorkerOk(Next(s, step), k)
  {
    ReadinessStays(s, step, k);
    ToggleFitsOn(s, step, k);
  }

  lemma ToggleFitsOn(s: State, step: Step, k: nat)
    requires Enabled(s, step) && k in s.workers && k in Next(s, step).workers && k < s.next && FitsToggle(s, k)
    ensures FitsToggle(Next(s, step), k)
  {
  }

  lemma ReadinessStays(s: State, step: Step, k: nat)
    requires Enabled(s, step) && k in Next(s, step).workers
    requires k in s.workers && k < s.next && KnowsReady(s, s.workers[k])
    requires IsOn(s) ==> AllComplete(s, ToBeReady(s))
    ensures KnowsReady(Next(s, step), Next(s, step).workers[k])
  {
    if !s.workers[k].minds { CompletenessStays(s, step, s.workers[k].seen); }
    if s.workers[k].place.Through? { CompletenessStays(s, step, s.workers[k].place.seen); }
    if IsOn(s) { CompletenessStays(s, step, ToBeReady(s)); }
  }

  lemma NewWorkerIsOk(s: State, w: nat)
    requires Enabled(s, Open(w)) && WatcherOk(s, w) && s.next !in s.workers
    ensures WorkerOk(Next(s, Open(w)), s.next)
  {
    if !s.watchers[w].minds { CompletenessStays(s, Open(w), s.watchers[w].seen); }
  }

  lemma ObjectsStay(s: State, step: Step, w: nat, uid: string)
    requires Inv(s) && Enabled(s, step) && (w, uid) in Next(s, step).listed
    ensures ObjectOk(Next(s, step), w, uid)
  {
    var s' := Next(s, step);
    if (w, uid) in s.listed {
      assert ObjectOk(s, w, uid);
      if Guarded(s, w, uid) && (w, uid) !in s.indexed {
        var n :| OfObject(w, uid, n) in s.toggles;
        if step.DropOwn? { assert WorkerOk(s, step.worker); }
        assert OfObject(w, uid, n) in s'.toggles;
      } else if step == Open(w) && s.watchers[w].indexed && w !in s.passed {
        NewObjectIsGuarded(s, w);
      }
    } else {
      assert step.Meet? && step.watcher == w && step.uid == uid;
      assert WatcherOk(s, w);
      UnlistedIsNew(s, w, uid);
    }
  }

  lemma UnlistedIsNew(s: State, w: nat, uid: string)
    requires Inv(s) && w !in s.passed && (w, uid) !in s.listed
    ensures !HasWorker(s, w, uid)
  {
    forall k | k in s.workers ensures s.workers[k].watcher != w || s.workers[k].uid != uid { assert WorkerOk(s, k); }
  }

  lemma NewObjectIsGuarded(s: State, w: nat)
    requires Inv(s) && Enabled(s, Open(w)) && s.watchers[w].indexed && w !in s.passed
    ensures Guarded(Next(s, Open(w)), w, s.watchers[w].pending.value)
  {
    assert WatcherOk(s, w);
    assert OfObject(w, s.watchers[w].pending.value, s.next) in Next(s, Open(w)).toggles;
  }

  lemma TogglesStay(s: State, step: Step, toggle: Toggle)
    requires Enabled(s, step) && toggle in Next(s, step).toggles && (toggle in s.toggles ==> ToggleOk(s, toggle))
    ensures ToggleOk(Next(s, step), toggle)
  {
  }

  lemma StepKeeps(s: State, step: Step)
    requires Inv(s) && Enabled(s, step)
    ensures Inv(Next(s, step))
  {
    var s' := Next(s, step);
    forall toggle | toggle in s'.toggles ensures ToggleOk(s', toggle) { TogglesStay(s, step, toggle); }
    forall w, uid | (w, uid) in s'.listed ensures ObjectOk(s', w, uid) { ObjectsStay(s, step, w, uid); }
    forall w | w in s'.watchers ensures WatcherOk(s', w) { WatchersStay(s, step, w); }
    if IsOn(s) { OnMeansReady(s); }
    forall k | k in s'.workers ensures WorkerOk(s', k) {
      if k in s.workers {
        WorkersStay(s, step, k);
      } else {
        assert WatcherOk(s, step.watcher);
        NewWorkerIsOk(s, step.watcher);
      }
    }
    if step.DropOwn? { assert WorkerOk(s, step.worker); }
    forall w | w in s'.passed ensures w < s'.next { if w in s.watchers { assert WatcherOk(s, w); } }
    forall w, uid | (w, uid) in s'.listed ensures w < s'.next { if w in s.watchers { assert WatcherOk(s, w); } }
  }

  // ----- Whole runs -----

  /** The state after these steps from that one, if each of them is enabled when its turn comes. */
  ghost predicate Leads(s0: State, steps: seq<Step>, s: State)
    decreases |steps|
  {
    if steps == [] then s == s0
    else Enabled(s0, steps[0]) && Leads(Next(s0, steps[0]), steps[1..], s)
  }

  lemma {:induction false} Always(s0: State, steps: seq<Step>, s: State)
    requires Inv(s0) && Leads(s0, steps, s)
    ensures Inv(s)
    decreases |steps|
  {
    if steps != [] {
      StepKeeps(s0, steps[0]);
      Always(Next(s0, steps[0]), steps[1..], s);
    }
  }

  /** The startup barrier: whenever the readiness is on, each watcher of an indexed resource has finished the listing,
      and each object that was met in the listing was indexed. */
  lemma StartupBarrier(limit: Option<nat>, steps: seq<Step>, s: State, w: nat, uid: string)
    requires Leads(Initial(limit), steps, s) && IsOn(s)
    requires w in s.watchers && s.watchers[w].indexed
    ensures w in s.passed
    ensures (w, uid) in s.listed ==> (w, uid) in s.indexed
  {
    Always(Initial(limit), steps, s);
    OnMeansReady(s);
    assert Complete(s, w);
  }

  /** No worker of any resource goes for its handlers but after the readiness of all the watchers of that moment:
      of the moment when it has passed the barrier, or when its watcher has noticed that there is no barrier anymore. */
  lemma HandlersGoAfterIndexing(limit: Option<nat>, steps: seq<Step>, s: State, k: nat, w: nat, uid: string)
    requires Leads(Initial(limit), steps, s)
    requires k in s.workers && s.workers[k].place.Through? && w in s.workers[k].place.seen
    ensures w in s.passed
    ensures (w, uid) in s.listed ==> (w, uid) in s.indexed
  {
    Always(Initial(limit), steps, s);
    assert WorkerOk(s, k);
    assert Complete(s, w);
  }

  // ----- When the readiness is never reached -----

  /** Nobody will ever drop the toggle. */
  predicate Orphan(s: State, toggle: Toggle) {
    && toggle in s.toggles
    && match toggle
       case Blocker(_) => false
       case Kind(w) => w !in s.watchers && w < s.next
       case OfObject(_, _, n) => n !in s.workers && n < s.next
  }

  /** The owner of the toggle waits for a place in the pool, and all those in the pool wait for the readiness. */
  predicate Deadlocked(s: State, toggle: Toggle) {
    && toggle.OfObject? && toggle in s.toggles && toggle.n in s.workers
    && s.workers[toggle.n].watcher == toggle.watcher && s.workers[toggle.n].place == Queued
    && Full(s, toggle.watcher)
    && forall k :: k in s.workers && s.workers[k].watcher == toggle.watcher && s.workers[k].place != Queued ==>
         s.workers[k].place == Blocked && s.workers[k].minds
  }

  lemma OrphanStays(s: State, step: Step, toggle: Toggle)
    requires Inv(s) && Enabled(s, step) && Orphan(s, toggle)
    ensures Orphan(Next(s, step), toggle)
  {
    if step.DropOwn? { assert WorkerOk(s, step.worker); }
  }

  /** No worker of the watcher makes a step. */
  predicate SamePool(s: State, s': State, w: nat) {
    && (forall k :: k in s.workers && s.workers[k].watcher == w ==> k in s'.workers && s'.workers[k] == s.workers[k])
    && (forall k :: k in s'.workers && s'.workers[k].watcher == w ==> k in s.workers || s'.workers[k].place == Queued)
  }

  lemma PoolStays(s: State, step: Step, toggle: Toggle)
    requires Enabled(s, step) && Deadlocked(s, toggle) && step != Stop(toggle.watcher)
    requires WorkerOk(s, toggle.n) && (step.DropOwn? ==> WorkerOk(s, step.worker))
    requires forall k :: k in s.workers ==> k < s.next
    ensures SamePool(s, Next(s, step), toggle.watcher) && toggle in Next(s, step).toggles
  {
  }

  lemma WorkersAreOfTheirs(s: State, step: Step)
    requires Enabled(s, step) && forall k :: k in s.workers ==> k < s.next
    ensures forall k :: k in s.workers && k in Next(s, step).workers ==>
              Next(s, step).workers[k].watcher == s.workers[k].watcher
  {
  }

  lemma DeadlockStays(s: State, s': State, toggle: Toggle)
    requires Deadlocked(s, toggle) && toggle in s'.toggles && s'.limit == s.limit
    requires SamePool(s, s', toggle.watcher)
    requires forall k :: k in s.workers && k in s'.workers ==> s'.workers[k].watcher == s.workers[k].watcher
    ensures Deadlocked(s', toggle)
  {
    assert Running(s', toggle.watcher) == Running(s, toggle.watcher);
  }

  lemma {:induction false} NeverReady(s0: State, steps: seq<Step>, s: State, toggle: Toggle)
    requires Inv(s0) && Leads(s0, steps, s)
    requires Orphan(s0, toggle) || Deadlocked(s0, toggle)
    ensures !IsOn(s)
    decreases |steps|
  {
    if steps != [] {
      StepKeeps(s0, steps[0]);
      if Orphan(s0, toggle) {
        OrphanStays(s0, steps[0], toggle);
      } else if steps[0] != Stop(toggle.watcher) {
        forall k | k in s0.workers ensures WorkerOk(s0, k) {}
        PoolStays(s0, steps[0], toggle);
        WorkersAreOfTheirs(s0, steps[0]);
        DeadlockStays(s0, Next(s0, steps[0]), toggle);
      } else {
        assert ToggleOk(s0, toggle);
      }
      NeverReady(Next(s0, steps[0]), steps[1..], s, toggle);
    }
  }

  /** The watcher has forgotten about the readiness, and so do its workers from that number on. */
  predicate IsReleased(s: State, w: nat, from: nat) {
    && w < s.next && from <= s.next && (w in s.watchers ==> !s.watchers[w].minds)
    && forall k :: k in s.workers && from <= k && s.workers[k].watcher == w ==>
         s.workers[k].toggle.None? && !s.workers[k].minds
  }

  lemma ReleaseStays(s: State, step: Step, w: nat, from: nat)
    requires IsReleased(s, w, from) && Enabled(s, step)
    ensures IsReleased(Next(s, step), w, from)
  {
    var s' := Next(s, step);
    forall k | k in s'.workers && from <= k && s'.workers[k].watcher == w
      ensures s'.workers[k].toggle.None? && !s'.workers[k].minds
    {
      if k in s.workers && !(step.Open? && k == s.next) { assert s.workers[k].watcher == w; }
    }
  }

  lemma {:induction false} AlwaysReleased(s0: State, steps: seq<Step>, s: State, w: nat, from: nat)
    requires IsReleased(s0, w, from) && Leads(s0, steps, s)
    ensures IsReleased(s, w, from)
    decreases |steps|
  {
    if steps != [] {
      ReleaseStays(s0, steps[0], w, from);
      AlwaysReleased(Next(s0, steps[0]), steps[1..], s, w, from);
    }
  }

  lemma MetWhenReady(s: State, w: nat, uid: string)
    requires Inv(s) && IsOn(s) && Enabled(s, Meet(w, uid)) && !HasWorker(s, w, uid)
    ensures var met := Next(s, Meet(w, uid));
            IsReleased(met, w, s.next) && Enabled(met, Open(w)) && IsOn(Next(met, Open(w)))
  {
    assert WatcherOk(s, w);
    assert forall k :: k in s.workers ==> WorkerOk(s, k);
  }

  /** The readiness is achieved once: an object that is met then does not turn it off, and neither that object nor those
      met by the watcher later, in whatever further run, are ever blocked before their handlers. */
  lemma LateObjectsDoNotBlock(
    limit: Option<nat>, before: seq<Step>, s0: State, w: nat, uid: string, steps: seq<Step>, s: State, k: nat
  )
    requires Leads(Initial(limit), before, s0) && IsOn(s0) && Enabled(s0, Meet(w, uid)) && !HasWorker(s0, w, uid)
    requires Leads(Next(s0, Meet(w, uid)), steps, s)
    ensures var met := Next(s0, Meet(w, uid)); Enabled(met, Open(w)) && IsOn(Next(met, Open(w)))
    ensures k in s.workers && s0.next <= k && s.workers[k].watcher == w ==>
              s.workers[k].toggle.None? && (s.workers[k].place == Blocked ==> Enabled(s, Pass(k)))
  {
    Always(Initial(limit), before, s0);
    MetWhenReady(s0, w, uid);
    AlwaysReleased(Next(s0, Meet(w, uid)), steps, s, w, s0.next);
  }

  /** A watcher that is stopped in its initial listing (its namespace or resource is gone) leaves its toggle behind:
      the operator is never ready after that. */
  lemma StoppedInListing(limit: Option<nat>, steps: seq<Step>, s: State, w: nat, more: seq<Step>, s': State)
    requires Leads(Initial(limit), steps, s)
    requires w in s.watchers && s.watchers[w].indexed && w !in s.passed
    requires Leads(Next(s, Stop(w)), more, s')
    ensures !IsOn(s')
  {
    Always(Initial(limit), steps, s);
    StepKeeps(s, Stop(w));
    assert WatcherOk(s, w);
    NeverReady(Next(s, Stop(w)), more, s', Kind(w));
  }

  /** So does a watcher that is stopped when its worker has not indexed an object yet. */
  lemma StoppedInIndexing(
    limit: Option<nat>, steps: seq<Step>, s: State, w: nat, uid: string, more: seq<Step>, s': State
  )
    requires Leads(Initial(limit), steps, s)
    requires w in s.watchers && s.watchers[w].indexed && w in s.passed && (w, uid) in s.listed && (w, uid) !in s.indexed
    requires Leads(Next(s, Stop(w)), more, s')
    ensures !IsOn(s')
  {
    Always(Initial(limit), steps, s);
    StepKeeps(s, Stop(w));
    assert ObjectOk(s, w, uid);
    var n :| OfObject(w, uid, n) in s.toggles;
    assert ToggleOk(s, OfObject(w, uid, n));
    NeverReady(Next(s, Stop(w)), more, s', OfObject(w, uid, n));
  }

  lemma {:induction false} LeadsOn(s0: State, steps: seq<Step>, s: State, step: Step)
    requires Leads(s0, steps, s) && Enabled(s, step)
    ensures Leads(s0, steps + [step], Next(s, step))
    decreases |steps|
  {
    if steps == [] {
      assert [step][1..] == [];
    } else {
      LeadsOn(Next(s0, steps[0]), steps[1..], s, step);
      assert (steps + [step])[1..] == steps[1..] + [step];
    }
  }

  lemma Go(steps: seq<Step>, s: State, step: Step) returns (steps': seq<Step>, s': State)
    requires Leads(Initial(Some(1)), steps, s) && Enabled(s, step)
    ensures Leads(Initial(Some(1)), steps', s') && s' == Next(s, step)
  {
    steps', s' := steps + [step], Next(s, step);
    LeadsOn(Initial(Some(1)), steps, s, step);
  }

  /** A watcher of an indexed resource is started. */
  lemma StartOne() returns (steps: seq<Step>, s: State)
    ensures Leads(Initial(Some(1)), steps, s)
    ensures s.limit == Some(1) && s.next == 2 && s.toggles == {Kind(1)}
    ensures s.workers == map[] && s.watchers == map[1 := Watcher(true, true, None, {})]
  {
    s, steps := Initial(Some(1)), [];
    steps, s := Go(steps, s, Block);
    steps, s := Go(steps, s, Spawn(true));
    steps, s := Go(steps, s, Unblock);
  }

  /** It lists two objects. */
  lemma ListTwo() returns (steps: seq<Step>, s: State)
    ensures Leads(Initial(Some(1)), steps, s)
    ensures s.limit == Some(1) && s.toggles == {Kind(1), OfObject(1, "a", 2), OfObject(1, "b", 3)}
    ensures s.workers == map[2 := Worker(1, "a", Some(OfObject(1, "a", 2)), true, {}, Queued),
                             3 := Worker(1, "b", Some(OfObject(1, "b", 3)), true, {}, Queued)]
    ensures s.watchers == map[1 := Watcher(true, true, None, {})]
  {
    steps, s := StartOne();
    steps, s := Go(steps, s, Meet(1, "a"));
    steps, s := Go(steps, s, Open(1));
    assert "a"[0] != "b"[0];
    steps, s := Go(steps, s, Meet(1, "b"));
    steps, s := Go(steps, s, Open(1));
  }

  /** The worker of the first one takes the only place. */
  lemma StartFirst() returns (steps: seq<Step>, s: State)
    ensures Leads(Initial(Some(1)), steps, s)
    ensures s.limit == Some(1) && s.toggles == {Kind(1), OfObject(1, "a", 2), OfObject(1, "b", 3)}
    ensures s.workers == map[2 := Worker(1, "a", Some(OfObject(1, "a", 2)), true, {}, Busy),
                             3 := Worker(1, "b", Some(OfObject(1, "b", 3)), true, {}, Queued)]
    ensures s.watchers == map[1 := Watcher(true, true, None, {})]
  {
    steps, s := ListTwo();
    assert Running(s, 1) == {};
    steps, s := Go(steps, s, Start(2));
  }

  /** It indexes the object, and then waits for the second one. */
  lemma IndexOne() returns (steps: seq<Step>, s: State)
    ensures Leads(Initial(Some(1)), steps, s)
    ensures s.limit == Some(1) && s.toggles == {Kind(1), OfObject(1, "b", 3)}
    ensures s.workers == map[2 := Worker(1, "a", Some(OfObject(1, "a", 2)), true, {}, Blocked),
                             3 := Worker(1, "b", Some(OfObject(1, "b", 3)), true, {}, Queued)]
    ensures s.watchers == map[1 := Watcher(true, true, None, {})]
  {
    steps, s := StartFirst();
    steps, s := Go(steps, s, Index(2));
    steps, s := Go(steps, s, DropOwn(2));
    assert "a"[0] != "b"[0];
  }

  /** With a limit of workers and more objects than that, the operator can lock itself up at the startup. */
  lemma LimitCanDeadlock() returns (steps: seq<Step>, s: State)
    ensures Leads(Initial(Some(1)), steps, s) && NoOrphans(s)
    ensures forall more, s' :: Leads(s, more, s') ==> !IsOn(s')
  {
    steps, s := IndexOne();
    assert Running(s, 1) == {2};
    var toggle := OfObject(1, "b", 3);
    assert Deadlocked(s, toggle);
    Always(Initial(Some(1)), steps, s);
    forall more, s' | Leads(s, more, s') ensures !IsOn(s') { NeverReady(s, more, s', toggle); }
  }

  // ----- When it can be reached -----

  ghost predicate NoOrphans(s: State) { forall toggle :: toggle in s.toggles ==> !Orphan(s, toggle) }

  predicate KeepsOwners(step: Step) { !step.Stop? && !step.Retire? }

  lemma NoneOrphaned(s: State, step: Step)
    requires Inv(s) && Enabled(s, step) && NoOrphans(s) && KeepsOwners(step)
    ensures Inv(Next(s, step)) && NoOrphans(Next(s, step))
  {
    StepKeeps(s, step);
    forall toggle | toggle in Next(s, step).toggles ensures !Orphan(Next(s, step), toggle) {
      if toggle in s.toggles { assert !Orphan(s, toggle); }
    }
  }

  // ----- The places in the pools -----

  /** The toggle of the worker is not dropped yet. */
  predicate Owns(s: State, k: nat)
    requires k in s.workers
  {
    s.workers[k].toggle.Some? && s.workers[k].toggle.value in s.toggles
  }

  /** The worker is in the pool, and will not leave it until everybody is ready. */
  predicate Waits(s: State, k: nat)
    requires k in s.workers
  {
    s.workers[k].minds && (s.workers[k].place == Indexed || s.workers[k].place == Blocked)
  }

  /** The workers of the watcher that need a place in its pool until everybody is ready; or else, toggles are left
      behind. */
  function Holders(s: State, w: nat): set<nat> {
    set k | k in s.workers && s.workers[k].watcher == w && (Owns(s, k) || Waits(s, k))
  }

  /** The watcher has to make one more such worker before the end of its listing. */
  predicate IsObliged(s: State, w: nat) {
    w in s.watchers && s.watchers[w].pending.Some? && Kind(w) in s.toggles
  }

  predicate HasRoom(s: State, w: nat) {
    s.limit.Some? ==> |Holders(s, w)| + (if IsObliged(s, w) then 1 else 0) <= s.limit.value
  }

  /** The places in each pool are enough for all who will hold them. */
  ghost predicate Roomy(s: State) { forall w :: HasRoom(s, w) }

  function WorkersOf(s: State, w: nat): set<nat> { set k | k in s.workers && s.workers[k].watcher == w }

  /** It is enough that there are no more objects than places. */
  lemma FewWorkersAreRoomy(s: State)
    requires s.limit.Some?
    requires forall w ::
      |WorkersOf(s, w)| + (if w in s.watchers && s.watchers[w].pending.Some? then 1 else 0) <= s.limit.value
    ensures Roomy(s)
  {
    forall w ensures HasRoom(s, w) {
      Fewer(Holders(s, w), WorkersOf(s, w));
    }
  }

  /** A pool never has more workers than its limit. */
  ghost predicate Pooled(s: State) {
    s.limit.Some? ==> forall w :: |Running(s, w)| <= s.limit.value
  }

  lemma RunningBefore(s: State, step: Step, w: nat, k: nat)
    requires Enabled(s, step) && k in Running(Next(s, step), w) && step != Start(k)
    ensures k in Running(s, w)
  {
  }

  lemma RunningAfter(s: State, step: Step, w: nat)
    requires Enabled(s, step) && s.limit.Some? && |Running(s, w)| <= s.limit.value
    ensures |Running(Next(s, step), w)| <= s.limit.value
  {
    var s' := Next(s, step);
    if step.Start? && s.workers[step.worker].watcher == w {
      assert Running(s', w) == Running(s, w) + {step.worker};
    } else {
      forall k | k in Running(s', w) ensures k in Running(s, w) { RunningBefore(s, step, w, k); }
      Fewer(Running(s', w), Running(s, w));
    }
  }

  lemma PoolsStay(s: State, step: Step)
    requires Inv(s) && Pooled(s) && Enabled(s, step)
    ensures Pooled(Next(s, step))
  {
    if s.limit.Some? {
      forall w ensures |Running(Next(s, step), w)| <= s.limit.value { RunningAfter(s, step, w); }
    }
  }

  lemma {:induction false} AlwaysPooled(s0: State, steps: seq<Step>, s: State)
    requires Inv(s0) && Pooled(s0) && Leads(s0, steps, s)
    ensures Inv(s) && Pooled(s) && s.limit == s0.limit
    decreases |steps|
  {
    if steps != [] {
      StepKeeps(s0, steps[0]);
      PoolsStay(s0, steps[0]);
      AlwaysPooled(Next(s0, steps[0]), steps[1..], s);
    }
  }

  lemma InitialIsPooled(limit: Option<nat>)
    ensures Inv(Initial(limit)) && Pooled(Initial(limit))
  {
    assert forall w :: Running(Initial(limit), w) == {};
  }

  // ----- With too few places -----

  /** Without a toggle, only those in the pool hold places there, so that there is always room. */
  lemma NoRoomIsOff(s: State, w: nat)
    requires Inv(s) && Pooled(s) && !HasRoom(s, w)
    ensures !IsOn(s)
    ensures IsObliged(s, w) || exists k :: k in Holders(s, w) && Owns(s, k)
  {
    if !IsObliged(s, w) && forall k :: k in Holders(s, w) ==> !Owns(s, k) {
      Fewer(Holders(s, w), Running(s, w));
    }
  }

  lemma HolderStays(s: State, step: Step, w: nat, k: nat)
    requires Inv(s) && Enabled(s, step) && !IsOn(s) && k in Holders(s, w)
    requires step != Stop(w) && step != Retire(k)
    ensures k in Holders(Next(s, step), w)
  {
    assert WorkerOk(s, k);
    if step.DropOwn? { assert WorkerOk(s, step.worker); }
    if step.Unblock? || step.EndListing? { assert Owns(s, k) ==> s.workers[k].toggle.value.OfObject?; }
  }

  lemma LeavingOrphans(s: State, step: Step, k: nat)
    requires Inv(s) && Enabled(s, step) && k in s.workers && Owns(s, k) && k !in Next(s, step).workers
    ensures !NoOrphans(Next(s, step))
  {
    assert WorkerOk(s, k);
    assert Orphan(Next(s, step), s.workers[k].toggle.value);
  }

  lemma StoppingOrphans(s: State, w: nat)
    requires Inv(s) && Pooled(s) && Enabled(s, Stop(w)) && !HasRoom(s, w)
    ensures !NoOrphans(Next(s, Stop(w)))
  {
    NoRoomIsOff(s, w);
    if IsObliged(s, w) {
      assert WatcherOk(s, w);
      assert Orphan(Next(s, Stop(w)), Kind(w));
    } else {
      var k :| k in Holders(s, w) && Owns(s, k);
      LeavingOrphans(s, Stop(w), k);
    }
  }

  lemma HoldersStay(s: State, step: Step, w: nat)
    requires Inv(s) && Enabled(s, step) && !IsOn(s)
    requires step != Stop(w) && !(step.Retire? && step.worker in Holders(s, w))
    ensures Holders(s, w) <= Holders(Next(s, step), w)
    ensures |Holders(s, w)| <= |Holders(Next(s, step), w)|
  {
    forall k | k in Holders(s, w) ensures k in Holders(Next(s, step), w) { HolderStays(s, step, w, k); }
    Fewer(Holders(s, w), Holders(Next(s, step), w));
  }

  /** The obligation of the watcher is over only when there is one more worker of the kind. */
  lemma ObligationIsMet(s: State, step: Step, w: nat)
    requires Inv(s) && Enabled(s, step) && IsObliged(s, w) && step != Stop(w)
    ensures IsObliged(Next(s, step), w)
      || (step == Open(w) && s.next in Holders(Next(s, step), w) && s.next !in Holders(s, w))
  {
    if step == Open(w) {
      assert ToggleOk(s, Kind(w));
      forall k | k in Holders(s, w) ensures k < s.next { assert WorkerOk(s, k); }
    }
  }

  /** Those who hold the places never give them back; or else, they leave their toggles behind. */
  lemma NoRoomStays(s: State, step: Step, w: nat)
    requires Inv(s) && Pooled(s) && Enabled(s, step) && !HasRoom(s, w)
    ensures !HasRoom(Next(s, step), w) || !NoOrphans(Next(s, step))
  {
    NoRoomIsOff(s, w);
    if step == Stop(w) {
      StoppingOrphans(s, w);
    } else if step.Retire? && step.worker in Holders(s, w) {
      LeavingOrphans(s, step, step.worker);
    } else {
      HoldersStay(s, step, w);
      if IsObliged(s, w) {
        ObligationIsMet(s, step, w);
        Fewer(Holders(s, w), Holders(Next(s, step), w));
      }
    }
  }

  lemma {:induction false} NoRoomIsNeverReady(s0: State, steps: seq<Step>, s: State, w: nat)
    requires Inv(s0) && Pooled(s0) && !HasRoom(s0, w) && Leads(s0, steps, s)
    ensures !IsOn(s)
    decreases |steps|
  {
    NoRoomIsOff(s0, w);
    if steps != [] {
      var s1 := Next(s0, steps[0]);
      StepKeeps(s0, steps[0]);
      PoolsStay(s0, steps[0]);
      NoRoomStays(s0, steps[0], w);
      if HasRoom(s1, w) {
        var toggle :| toggle in s1.toggles && Orphan(s1, toggle);
        NeverReady(s1, steps[1..], s, toggle);
      } else {
        NoRoomIsNeverReady(s1, steps[1..], s, w);
      }
    }
  }

  // ----- With enough places -----

  /** The state can be brought to the readiness if nothing new happens. */
  ghost predicate Promising(s: State) { Inv(s) && Pooled(s) && NoOrphans(s) && Roomy(s) }

  function Globals(s: State): set<Toggle> { set toggle | toggle in s.toggles && !toggle.OfObject? }

  /** The owner of the toggle needs a place in the pool, and there is none; or there are others to be started before
      it. */
  predicate MustWait(s: State, toggle: Toggle) {
    toggle.OfObject? && At(s, toggle.n, Queued) && (Full(s, s.workers[toggle.n].watcher) || Older(s, toggle.n) != {})
  }

  /** What the owner of the toggle does next until it is dropped. */
  function Owners(s: State, toggle: Toggle): (step: Step)
    requires Inv(s) && toggle in s.toggles && !Orphan(s, toggle) && !MustWait(s, toggle)
    ensures Enabled(s, step) && KeepsOwners(step)
  {
    assert ToggleOk(s, toggle);
    match toggle
    case Blocker(_) => Unblock
    case Kind(w) => if s.watchers[w].pending.None? then EndListing(w) else Open(w)
    case OfObject(_, _, n) =>
      assert WorkerOk(s, n);
      match s.workers[n].place
      case Queued => Start(n)
      case Idle => More(n)
      case Busy => Index(n)
      case _ => DropOwn(n)
  }

  function Distance(s: State, toggle: Toggle): nat {
    match toggle
    case Blocker(_) => 0
    case Kind(w) => if w in s.watchers && s.watchers[w].pending.Some? then 1 else 0
    case OfObject(_, _, n) =>
      if n !in s.workers then 0
      else match s.workers[n].place
           case Queued => 2
           case Idle => 2
           case Busy => 1
           case _ => 0
  }

  lemma OwnersDrop(s: State, toggle: Toggle)
    requires Inv(s) && NoOrphans(s) && toggle in s.toggles && !MustWait(s, toggle)
    requires toggle.OfObject? ==> Globals(s) == {}
    ensures var s' := Next(s, Owners(s, toggle));
            if Distance(s, toggle) == 0 then toggle !in s'.toggles && s'.toggles <= s.toggles
            else toggle in s'.toggles && Distance(s', toggle) < Distance(s, toggle)
                 && Globals(s') <= Globals(s) && (toggle.OfObject? ==> s'.toggles == s.toggles)
  {
    assert ToggleOk(s, toggle) && !Orphan(s, toggle);
    if toggle.OfObject? { assert WorkerOk(s, toggle.n); }
  }

  /** The owners need no more places than they need already. */
  lemma RoomStays(s: State, toggle: Toggle, w: nat)
    requires Inv(s) && NoOrphans(s) && toggle in s.toggles && !MustWait(s, toggle) && HasRoom(s, w)
    ensures HasRoom(Next(s, Owners(s, toggle)), w)
  {
    var step, s' := Owners(s, toggle), Next(s, Owners(s, toggle));
    if step.Open? {
      OpeningNeedsNoMore(s, step.watcher, w);
    } else {
      forall k | k in Holders(s', w) ensures k in Holders(s, w) { HolderWas(s, toggle, w, k); }
      Fewer(Holders(s', w), Holders(s, w));
    }
  }

  lemma OpeningNeedsNoMore(s: State, opener: nat, w: nat)
    requires Inv(s) && Enabled(s, Open(opener)) && Kind(opener) in s.toggles && HasRoom(s, w)
    ensures HasRoom(Next(s, Open(opener)), w)
  {
    var s' := Next(s, Open(opener));
    assert ToggleOk(s, Kind(opener));
    var more := if w == opener then Holders(s, w) + {s.next} else Holders(s, w);
    forall k | k in Holders(s', w) ensures k in more {
      if k in s.workers { assert WorkerOk(s, k); }
    }
    Fewer(Holders(s', w), more);
  }

  lemma HolderWas(s: State, toggle: Toggle, w: nat, k: nat)
    requires Inv(s) && NoOrphans(s) && toggle in s.toggles && !MustWait(s, toggle) && !Owners(s, toggle).Open?
    requires k in Holders(Next(s, Owners(s, toggle)), w)
    ensures k in Holders(s, w)
  {
    assert ToggleOk(s, toggle) && !Orphan(s, toggle);
    if toggle.OfObject? { assert WorkerOk(s, toggle.n) && Owns(s, toggle.n); }
  }

  /** The toggle to be dropped next: those of the watchers go first. */
  predicate IsNext(s: State, toggle: Toggle) {
    toggle in s.toggles && (toggle.OfObject? ==> Globals(s) == {})
  }

  lemma SomeNext(s: State) returns (toggle: Toggle)
    requires !IsOn(s)
    ensures IsNext(s, toggle)
  {
    if Globals(s) == {} { toggle :| toggle in s.toggles; } else { toggle :| toggle in Globals(s); }
  }

  function StepsToIdle(place: Place): nat {
    match place
    case Indexed => 3
    case Blocked => 2
    case Through(_) => 1
    case Busy => 1
    case _ => 0
  }

  /** A worker that holds nothing can leave the pool at once. */
  lemma {:induction false} Evicted(s: State, k: nat) returns (steps: seq<Step>, s': State)
    requires k in s.workers && s.workers[k].place != Queued && !Owns(s, k) && !Waits(s, k)
    ensures Leads(s, steps, s') && s' == s.(workers := s.workers - {k})
    decreases StepsToIdle(s.workers[k].place)
  {
    var place := s.workers[k].place;
    if place == Idle {
      steps, s' := [Retire(k)], Next(s, Retire(k));
      assert Leads(s', [], s') && steps[1..] == [];
    } else {
      var step := if place == Indexed then DropOwn(k) else if place == Blocked then Pass(k)
                  else if place == Busy then Skip(k) else Finish(k);
      var s1 := Next(s, step);
      assert s1 == Move(s, k, s1.workers[k].place);
      steps, s' := Evicted(s1, k);
      assert s1.workers - {k} == s.workers - {k};
      LeadsMore(s, step, steps, s');
      steps := [step] + steps;
    }
  }

  lemma EvictionHarmsNobody(s: State, k: nat, s': State)
    requires Promising(s) && Inv(s') && k in s.workers && !Owns(s, k) && !Waits(s, k)
    requires s' == s.(workers := s.workers - {k})
    ensures Promising(s')
  {
    forall toggle | toggle in s'.toggles ensures !Orphan(s', toggle) {
      assert !Orphan(s, toggle) && ToggleOk(s, toggle);
    }
    forall w ensures HasRoom(s', w) {
      assert HasRoom(s, w);
      assert Holders(s', w) == Holders(s, w);
    }
    if s.limit.Some? {
      forall w ensures |Running(s', w)| <= s.limit.value { Fewer(Running(s', w), Running(s, w)); }
    }
  }

  /** If the pool is full, and has room for the waiting owner, there is somebody in it who holds nothing. */
  lemma SomebodyHoldsNothing(s: State, toggle: Toggle) returns (k: nat)
    requires Promising(s) && toggle in s.toggles && toggle.OfObject? && At(s, toggle.n, Queued)
    requires Full(s, s.workers[toggle.n].watcher)
    ensures k in Running(s, s.workers[toggle.n].watcher) && !Owns(s, k) && !Waits(s, k)
  {
    var w := s.workers[toggle.n].watcher;
    assert ToggleOk(s, toggle) && !Orphan(s, toggle) && HasRoom(s, w);
    assert toggle.n in Holders(s, w) && toggle.n !in Running(s, w);
    if Running(s, w) <= Holders(s, w) {
      Fewer(Running(s, w), Holders(s, w));
      assert false;
    }
    k :| k in Running(s, w) && k !in Holders(s, w);
  }

  lemma StartHarmsNobody(s: State, k: nat)
    requires Promising(s) && Enabled(s, Start(k))
    ensures Promising(Next(s, Start(k)))
  {
    var s' := Next(s, Start(k));
    NoneOrphaned(s, Start(k));
    PoolsStay(s, Start(k));
    forall w ensures HasRoom(s', w) {
      assert HasRoom(s, w);
      assert Holders(s', w) == Holders(s, w);
    }
  }

  /** The owner gets its place, if there is room: all those before it are started, and those who hold nothing leave. */
  lemma {:induction false} PlaceIsMade(s: State, toggle: Toggle) returns (steps: seq<Step>, s': State)
    requires Promising(s) && toggle in s.toggles && toggle.OfObject? && At(s, toggle.n, Queued)
    ensures Leads(s, steps, s') && Promising(s') && At(s', toggle.n, Queued) && !MustWait(s', toggle)
    ensures s'.toggles == s.toggles
    decreases |Older(s, toggle.n)|, if Full(s, s.workers[toggle.n].watcher) then 1 else 0
  {
    var w, n := s.workers[toggle.n].watcher, toggle.n;
    var first, s1;
    if Full(s, w) {
      var k := SomebodyHoldsNothing(s, toggle);
      first, s1 := Evicted(s, k);
      Always(s, first, s1);
      EvictionHarmsNobody(s, k, s1);
      assert Running(s1, w) == Running(s, w) - {k};
      assert Older(s1, n) == Older(s, n);
    } else if Older(s, n) != {} {
      var k := Least(Older(s, n));
      assert Older(s, k) <= Older(s, n);
      first, s1 := [Start(k)], Next(s, Start(k));
      StartHarmsNobody(s, k);
      LeadsMore(s, Start(k), [], s1);
      Fewer(Older(s1, n), Older(s, n));
    } else {
      return [], s;
    }
    var more;
    more, s' := PlaceIsMade(s1, toggle);
    LeadsThrough(s, first, s1, more, s');
    steps := first + more;
  }

  /** The owner of the toggle comes closer to dropping it; nobody else is worse off. */
  lemma OwnerSteps(s: State, toggle: Toggle) returns (s': State)
    requires Promising(s) && IsNext(s, toggle) && !MustWait(s, toggle)
    ensures s' == Next(s, Owners(s, toggle)) && Promising(s')
    ensures |Globals(s')| <= |Globals(s)|
    ensures toggle in s'.toggles ==> IsNext(s', toggle) && Distance(s', toggle) < Distance(s, toggle)
                                     && (toggle.OfObject? ==> |s'.toggles| == |s.toggles|)
    ensures toggle !in s'.toggles ==> if toggle.OfObject? then Globals(s') == {} && |s'.toggles| < |s.toggles|
                                      else |Globals(s')| < |Globals(s)|
  {
    s' := Next(s, Owners(s, toggle));
    NoneOrphaned(s, Owners(s, toggle));
    PoolsStay(s, Owners(s, toggle));
    forall w ensures HasRoom(s', w) { RoomStays(s, toggle, w); }
    OwnersDrop(s, toggle);
    Fewer(Globals(s'), Globals(s));
    if toggle !in s'.toggles { Fewer(s'.toggles, s.toggles); }
    if !toggle.OfObject? { assert toggle in Globals(s); }
  }

  lemma OwnerMoves(s: State, toggle: Toggle) returns (steps: seq<Step>, s': State)
    requires Promising(s) && IsNext(s, toggle)
    ensures Leads(s, steps, s') && Promising(s')
    ensures |Globals(s')| <= |Globals(s)|
    ensures toggle in s'.toggles ==> IsNext(s', toggle) && Distance(s', toggle) < Distance(s, toggle)
                                     && (toggle.OfObject? ==> |s'.toggles| == |s.toggles|)
    ensures toggle !in s'.toggles ==> if toggle.OfObject? then Globals(s') == {} && |s'.toggles| < |s.toggles|
                                      else |Globals(s')| < |Globals(s)|
  {
    var s1 := s;
    steps := [];
    if MustWait(s, toggle) {
      steps, s1 := PlaceIsMade(s, toggle);
      assert Globals(s1) == Globals(s);
    }
    s' := OwnerSteps(s1, toggle);
    LeadsOn(s, steps, s1, Owners(s1, toggle));
    steps := steps + [Owners(s1, toggle)];
  }

  lemma {:induction false} LeadsThrough(s0: State, steps: seq<Step>, s1: State, more: seq<Step>, s: State)
    requires Leads(s0, steps, s1) && Leads(s1, more, s)
    ensures Leads(s0, steps + more, s)
    decreases |steps|
  {
    if steps == [] {
      assert steps + more == more;
    } else {
      LeadsThrough(Next(s0, steps[0]), steps[1..], s1, more, s);
      assert (steps + more)[1..] == steps[1..] + more;
    }
  }

  /** With enough places in the pools, each toggle is dropped if only its owner goes on, and the idle workers leave. */
  lemma {:induction false} CanBeReady(s: State, toggle: Toggle) returns (steps: seq<Step>, s': State)
    requires Promising(s) && IsNext(s, toggle)
    ensures Leads(s, steps, s') && IsOn(s')
    decreases |Globals(s)|, if toggle.OfObject? then 0 else Distance(s, toggle), |s.toggles|, Distance(s, toggle)
  {
    var first, s1 := OwnerMoves(s, toggle);
    if IsOn(s1) {
      steps, s' := first, s1;
    } else {
      var other := toggle;
      if toggle !in s1.toggles {
        other := SomeNext(s1);
        assert toggle.OfObject? ==> other.OfObject? by { assert !other.OfObject? ==> other in Globals(s1); }
      }
      var more;
      more, s' := CanBeReady(s1, other);
      LeadsThrough(s, first, s1, more, s');
      steps := first + more;
    }
  }

  lemma LeadsMore(s: State, step: Step, steps: seq<Step>, s': State)
    requires Enabled(s, step) && Leads(Next(s, step), steps, s')
    ensures Leads(s, [step] + steps, s')
  {
    assert ([step] + steps)[1..] == steps;
  }

  ghost predicate CanReachReadiness(s: State) { exists steps, s' :: Leads(s, steps, s') && IsOn(s') }

  /** The readiness can be reached from a reachable state if and only if no toggle was left behind by a watcher or a
      worker that is gone, and the places in each pool are enough for all who will hold them. */
  lemma ReadinessIsReachableExactly(limit: Option<nat>, steps: seq<Step>, s: State)
    requires Leads(Initial(limit), steps, s)
    ensures CanReachReadiness(s) <==> NoOrphans(s) && Roomy(s)
  {
    InitialIsPooled(limit);
    AlwaysPooled(Initial(limit), steps, s);
    if NoOrphans(s) && Roomy(s) {
      if IsOn(s) {
        var none: seq<Step> := [];
        assert Leads(s, none, s) && IsOn(s);
      } else {
        var toggle := SomeNext(s);
        var more, s' := CanBeReady(s, toggle);
      }
    } else if NoOrphans(s) {
      var w :| !HasRoom(s, w);
      forall more, s' | Leads(s, more, s') ensures !IsOn(s') { NoRoomIsNeverReady(s, more, s', w); }
    } else {
      var toggle :| toggle in s.toggles && Orphan(s, toggle);
      forall more, s' | Leads(s, more, s') ensures !IsOn(s') { NeverReady(s, more, s', toggle); }
    }
  }
}

/** The vault of credentials: kopf/_cogs/structs/credentials.py. */
module Vaults {
  import opened Wrappers

  // Everything is done under one condition, and it is only released where the consumers wait for new credentials.
  // So, each operation is one step, or one step until the waiting, and the steps of all the consumers come in any
  // order.

  /** What the credentials are; these are compared by value. The time is in UTC, as it is after the normalisation. */
  datatype Context = Context(secret: string, priority: int, expiration: Option<int>)

  /** A particular object with the credentials. */
  datatype Info = Info(reference: nat, context: Context)

  datatype Store = Store(
    current: map<string, Info>, invalid: map<string, seq<Info>>, nextExpiration: Option<int>, ready: bool
  )

  predicate Equal(a: Info, b: Info) { a.context == b.context }

  predicate Same(a: Info, b: Info) { a.reference == b.reference }

  function History(invalid: map<string, seq<Info>>, key: string): seq<Info> {
    if key in invalid then invalid[key] else []
  }

  predicate Listed(info: Info, infos: seq<Info>) {
    exists i :: 0 <= i < |infos| && Equal(info, infos[i])
  }

  predicate IsExpired(info: Info, now: int) {
    info.context.expiration.Some? && info.context.expiration.value <= now
  }

  /** The time of the nearest expiration. */
  predicate IsNearest(next: Option<int>, current: map<string, Info>) {
    && (next.None? ==> forall key :: key in current ==> current[key].context.expiration.None?)
    && (next.Some? ==>
          && (exists key :: key in current && current[key].context.expiration == next)
          && (forall key :: key in current && current[key].context.expiration.Some? ==>
                next.value <= current[key].context.expiration.value))
  }

  lemma NearestIsOne(a: Option<int>, b: Option<int>, current: map<string, Info>)
    requires IsNearest(a, current) && IsNearest(b, current)
    ensures a == b
  {
  }

  /** The new credentials but those known as invalid. */
  function Accepted(s: Store, src: map<string, Info>): map<string, Info> {
    map key | key in src && !Listed(src[key], History(s.invalid, key)) :: src[key]
  }

  /** What is left if each of the items is checked. */
  function Unexpired(current: map<string, Info>, now: int): map<string, Info> {
    map key | key in current && !IsExpired(current[key], now) :: current[key]
  }

  function Last(infos: seq<Info>, n: nat): seq<Info> {
    if |infos| <= n then infos else infos[|infos| - n..]
  }

  datatype Step =
    | Populate(src: map<string, Info>)
    | Invalidate(key: string, info: Info)
    | Expire(now: int)

  /** One step of somebody, up to the next nearest expiration, which is determined by the rest. */
  ghost predicate Next(s: Store, step: Step, s': Store) {
    && IsNearest(s'.nextExpiration, s'.current)
    && match step
       case Populate(src) =>
         s'.ready && s'.invalid == s.invalid && s'.current == s.current + Accepted(s, src)
       case Invalidate(key, info) =>
         var hit := key in s.current && Same(s.current[key], info);
         && s'.current == (if hit then s.current - {key} else s.current)
         && s'.invalid
              == (if hit then s.invalid[key := Last(History(s.invalid, key), 2) + [s.current[key]]] else s.invalid)
         && s'.ready == (s.ready && s'.current != map[])
       case Expire(now) =>
         && s'.invalid == s.invalid
         && s'.current == Unexpired(s.current, now)
         && s'.ready == (s.ready && (s'.current != map[] || s.current == map[]))
  }

  /** The steps leave no choice: the nearest expiration is determined by the current credentials. */
  lemma NextIsOne(s: Store, step: Step, a: Store, b: Store)
    requires Next(s, step, a) && Next(s, step, b)
    ensures a == b
  {
    NearestIsOne(a.nextExpiration, b.nextExpiration, a.current);
  }

  ghost predicate Created(src: map<string, Info>, now: int, s: Store) {
    && s.current == src && s.invalid == map[] && IsNearest(s.nextExpiration, src)
    && s.ready == (exists key :: key in src && !IsExpired(src[key], now))
  }

  /** All the credentials given in the beginning are already of no use. */
  predicate PreExpired(src: map<string, Info>, now: int) {
    src != map[] && forall key :: key in src ==> IsExpired(src[key], now)
  }

  predicate Inv(s: Store) {
    && (forall key :: key in s.current ==> !Listed(s.current[key], History(s.invalid, key)))
    && (forall key :: key in s.invalid ==> |s.invalid[key]| <= 3)
    && IsNearest(s.nextExpiration, s.current)
  }

  predicate ReadyOrEmpty(s: Store) { !s.ready ==> s.current == map[] }

  lemma StepKeeps(s: Store, step: Step, s': Store)
    requires Inv(s) && Next(s, step, s')
    ensures Inv(s')
    ensures ReadyOrEmpty(s) ==> ReadyOrEmpty(s')
  {
    forall key | key in s'.current ensures !Listed(s'.current[key], History(s'.invalid, key)) {
      if step.Populate? && key in Accepted(s, step.src) {
        assert s'.current[key] == step.src[key];
      } else {
        assert key in s.current && s'.current[key] == s.current[key];
      }
    }
    if step.Invalidate? {
      assert |Last(History(s.invalid, step.key), 2)| <= 2;
    }
  }

  ghost predicate Leads(s0: Store, steps: seq<Step>, s: Store)
    decreases |steps|
  {
    if steps == [] then s == s0
    else exists s1 :: Next(s0, steps[0], s1) && Leads(s1, steps[1..], s)
  }

  lemma {:induction false} Always(s0: Store, steps: seq<Step>, s: Store)
    requires Inv(s0) && Leads(s0, steps, s)
    ensures Inv(s) && (ReadyOrEmpty(s0) ==> ReadyOrEmpty(s))
    decreases |steps|
  {
    if steps != [] {
      var s1 :| Next(s0, steps[0], s1) && Leads(s1, steps[1..], s);
      StepKeeps(s0, steps[0], s1);
      Always(s1, steps[1..], s);
    }
  }

  /** Whatever the consumers and the authenticator do, and in whatever order. */
  lemma VaultIsSound(src: map<string, Info>, now: int, s0: Store, steps: seq<Step>, s: Store, key: string)
    requires Created(src, now, s0) && Leads(s0, steps, s)
    ensures key in s.current ==> forall i :: 0 <= i < |History(s.invalid, key)| ==>
              !Equal(s.current[key], History(s.invalid, key)[i])
    ensures |History(s.invalid, key)| <= 3
    ensures IsNearest(s.nextExpiration, s.current)
    ensures !PreExpired(src, now) && !s.ready ==> s.current == map[]
  {
    CreatedIsReadyExactly(src, now, s0);
    Always(s0, steps, s);
  }

  lemma CreatedIsReadyExactly(src: map<string, Info>, now: int, s: Store)
    requires Created(src, now, s)
    ensures Inv(s) && (ReadyOrEmpty(s) <==> !PreExpired(src, now))
  {
  }

  /** The check of the nearest expiration alone is enough to know if anything is to be expired. */
  lemma NothingToExpireExactly(s: Store, now: int)
    requires Inv(s)
    ensures Unexpired(s.current, now) == s.current <==> s.nextExpiration.None? || now < s.nextExpiration.value
  {
    if s.nextExpiration.Some? && s.nextExpiration.value <= now {
      var key :| key in s.current && s.current[key].context.expiration == s.nextExpiration;
      assert key !in Unexpired(s.current, now);
    }
  }

  /** Exactly those that are expired go, and nobody is refused because of that; the readiness is lost exactly if these
      were all that there was. */
  lemma OnlyExpiredGo(s: Store, now: int, s': Store, key: string)
    requires Next(s, Expire(now), s')
    ensures key in s'.current <==> key in s.current && !IsExpired(s.current[key], now)
    ensures key in s'.current ==> s'.current[key] == s.current[key]
    ensures s'.ready <==>
              s.ready && (s.current == map[] || exists k :: k in s.current && !IsExpired(s.current[k], now))
    ensures History(s'.invalid, key) == History(s.invalid, key)
  {
    if k :| k in s.current && !IsExpired(s.current[k], now) { assert k in s'.current; }
  }

  /** An object is in the vault only if it was there, or was brought by a re-authentication. */
  ghost predicate Brings(steps: seq<Step>, key: string, info: Info) {
    exists i :: 0 <= i < |steps| && steps[i].Populate? && key in steps[i].src && Same(steps[i].src[key], info)
  }

  /** After the credentials are reported as failed, that very object is never used again until it is brought again;
      and the object that has replaced it is not affected by the late reports about the old one. */
  lemma LateReportsAreHarmless(s: Store, key: string, info: Info, s': Store, other: string)
    requires Next(s, Invalidate(key, info), s')
    ensures key in s'.current ==> !Same(s'.current[key], info)
    ensures key !in s.current || !Same(s.current[key], info) ==> s'.current == s.current && s'.invalid == s.invalid
    ensures other != key ==>
      (other in s'.current <==> other in s.current) && History(s'.invalid, other) == History(s.invalid, other)
    ensures other != key && other in s.current ==> s'.current[other] == s.current[other] && s'.ready == s.ready
  {
    if other != key && other in s.current { assert other in s'.current; }
  }

  lemma {:induction false} GoneUntilBrought(s0: Store, steps: seq<Step>, s: Store, key: string, info: Info)
    requires Leads(s0, steps, s) && (key in s0.current ==> !Same(s0.current[key], info))
    requires !Brings(steps, key, info)
    ensures key in s.current ==> !Same(s.current[key], info)
    decreases |steps|
  {
    if steps != [] {
      var s1 :| Next(s0, steps[0], s1) && Leads(s1, steps[1..], s);
      if steps[0].Populate? && key in Accepted(s0, steps[0].src) {
        assert s1.current[key] == steps[0].src[key];
      }
      assert forall i :: 0 <= i < |steps[1..]| ==> steps[1..][i] == steps[i + 1];
      GoneUntilBrought(s1, steps[1..], s, key, info);
    }
  }

  /** The credentials are among those few that have failed the last. */
  predicate AmongLast(infos: seq<Info>, info: Info, n: nat) {
    exists i :: 0 <= i < |infos| && |infos| - n <= i && Equal(info, infos[i])
  }

  predicate Fails(s: Store, step: Step, key: string) {
    step.Invalidate? && step.key == key && key in s.current && Same(s.current[key], step.info)
  }

  /** The failed credentials are refused, even in other objects, until three others of that key have failed after
      them. */
  lemma FailedIsRefused(s: Store, step: Step, s': Store, key: string, info: Info, n: nat)
    requires Next(s, step, s')
    ensures Fails(s, step, key) && Equal(info, s.current[key]) ==> AmongLast(History(s'.invalid, key), info, 1)
    ensures AmongLast(History(s.invalid, key), info, n) && n < 3 && Fails(s, step, key) ==>
      AmongLast(History(s'.invalid, key), info, n + 1)
    ensures AmongLast(History(s.invalid, key), info, n) && !Fails(s, step, key) ==>
      AmongLast(History(s'.invalid, key), info, n)
    ensures AmongLast(History(s.invalid, key), info, n) ==>
              step.Populate? && key in step.src && Equal(step.src[key], info) ==>
              (key in s'.current <==> key in s.current) && (key in s.current ==> s'.current[key] == s.current[key])
  {
    if Fails(s, step, key) {
      var was := History(s.invalid, key);
      LastIsRemembered(was, s.current[key]);
      if AmongLast(was, info, n) && n < 3 { OthersAreRemembered(was, s.current[key], info, n); }
    }
  }

  lemma LastIsRemembered(infos: seq<Info>, last: Info)
    ensures forall info :: Equal(info, last) ==> AmongLast(Last(infos, 2) + [last], info, 1)
  {
    var infos' := Last(infos, 2) + [last];
    assert infos'[|infos'| - 1] == last;
  }

  lemma OthersAreRemembered(infos: seq<Info>, last: Info, info: Info, n: nat)
    requires AmongLast(infos, info, n) && n < 3
    ensures AmongLast(Last(infos, 2) + [last], info, n + 1)
  {
    var i :| 0 <= i < |infos| && |infos| - n <= i && Equal(info, infos[i]);
    var j := if |infos| <= 2 then i else i - (|infos| - 2);
    assert (Last(infos, 2) + [last])[j] == infos[i];
  }

  /** The states before and after each of the steps. */
  ghost predicate IsTrace(states: seq<Store>, steps: seq<Step>) {
    |states| == |steps| + 1 && forall i :: 0 <= i < |steps| ==> Next(states[i], steps[i], states[i + 1])
  }

  /** All the credentials of the key that have failed in the run, in that order. */
  function Failed(states: seq<Store>, steps: seq<Step>, key: string): seq<Info>
    requires |states| == |steps| + 1
    decreases |steps|
  {
    if steps == [] then []
    else
      var n := |steps| - 1;
      Failed(states[..n + 1], steps[..n], key)
        + (if Fails(states[n], steps[n], key) then [states[n].current[key]] else [])
  }

  /** The history of a key is exactly the last three of all its credentials that have ever failed. */
  lemma {:induction false} HistoryIsLastThree(states: seq<Store>, steps: seq<Step>, key: string)
    requires IsTrace(states, steps) && states[0].invalid == map[]
    ensures History(states[|steps|].invalid, key) == Last(Failed(states, steps, key), 3)
    decreases |steps|
  {
    if steps != [] {
      var n := |steps| - 1;
      HistoryIsLastThree(states[..n + 1], steps[..n], key);
      assert Next(states[n], steps[n], states[n + 1]);
      var before := Failed(states[..n + 1], steps[..n], key);
      if Fails(states[n], steps[n], key) {
        assert Last(Last(before, 3), 2) + [states[n].current[key]] == Last(before + [states[n].current[key]], 3);
      } else {
        assert before + [] == before;
      }
    }
  }

  /** Over whole runs, through any objects with equal credentials: the vault never has any that equal one of the last
      three failed of the key, however often they are brought; and it takes all the others. */
  lemma RefusedExactly(
    src: map<string, Info>, now: int, states: seq<Store>, steps: seq<Step>, brought: map<string, Info>, s: Store,
    key: string
  )
    requires IsTrace(states, steps) && Created(src, now, states[0])
    requires Next(states[|steps|], Populate(brought), s)
    ensures var before, refused := states[|steps|], Last(Failed(states, steps, key), 3);
            && (key in before.current ==> !Listed(before.current[key], refused))
            && (key in brought && !Listed(brought[key], refused) ==> key in s.current && s.current[key] == brought[key])
            && (key in brought && Listed(brought[key], refused) ==>
                  (key in s.current <==> key in before.current)
                    && (key in s.current ==> s.current[key] == before.current[key]))
            && (key !in brought ==>
                  (key in s.current <==> key in before.current)
                    && (key in s.current ==> s.current[key] == before.current[key]))
            && s.ready
  {
    HistoryIsLastThree(states, steps, key);
    CreatedIsReadyExactly(src, now, states[0]);
    TraceKeeps(states, steps);
  }

  lemma {:induction false} TraceKeeps(states: seq<Store>, steps: seq<Step>)
    requires IsTrace(states, steps) && Inv(states[0])
    ensures Inv(states[|steps|])
    decreases |steps|
  {
    if steps != [] {
      var n := |steps| - 1;
      TraceKeeps(states[..n + 1], steps[..n]);
      StepKeeps(states[n], steps[n], states[n + 1]);
    }
  }

  predicate LetsInForNothing(s: Store) { s.ready && s.current == map[] }

  /** The readiness with nothing in the vault comes only with a re-authentication that has brought nothing new, and
      stays only until something is reported. */
  lemma EmptyAndReadyExactly(s: Store, step: Step, s': Store)
    requires Next(s, step, s')
    ensures LetsInForNothing(s') <==>
              || (step.Populate? && s.current == map[] && Accepted(s, step.src) == map[])
              || (step.Expire? && LetsInForNothing(s))
    ensures !s'.ready ==> s'.current == map[] || !s.ready
  {
    if step.Expire? && s.current == map[] {
      assert Unexpired(s.current, step.now) == map[];
    }
    if step.Populate? && s'.current == map[] {
      assert s.current.Keys <= s'.current.Keys && Accepted(s, step.src).Keys <= s'.current.Keys;
    }
  }

  /** The last re-authentication has brought nothing, and nothing was brought or reported since then. */
  ghost predicate BroughtNothing(states: seq<Store>, steps: seq<Step>, i: nat)
    requires |states| == |steps| + 1
  {
    && i < |steps| && steps[i].Populate? && states[i + 1].current == map[]
    && forall j :: i < j < |steps| ==> steps[j].Expire?
  }

  /** Over whole runs: the clients are let in with nothing to use only if the last re-authentication has failed to bring
      anything, and nothing has happened since; in all other cases they wait for the next one. */
  lemma {:induction false} NothingToUseExactly(src: map<string, Info>, now: int, states: seq<Store>, steps: seq<Step>)
    requires IsTrace(states, steps) && Created(src, now, states[0])
    ensures LetsInForNothing(states[|steps|]) <==> exists i: nat :: BroughtNothing(states, steps, i)
    decreases |steps|
  {
    if steps != [] {
      var n := |steps| - 1;
      var before, last := states[..n + 1], steps[..n];
      NothingToUseExactly(src, now, before, last);
      assert Next(states[n], steps[n], states[n + 1]);
      EmptyAndReadyExactly(states[n], steps[n], states[n + 1]);
      if LetsInForNothing(states[n + 1]) {
        if steps[n].Populate? {
          assert BroughtNothing(states, steps, n);
        } else {
          var i: nat :| BroughtNothing(before, last, i);
          assert forall j :: i < j < n ==> steps[j] == last[j];
          assert BroughtNothing(states, steps, i);
        }
      }
      if i: nat :| BroughtNothing(states, steps, i) {
        if i < n {
          assert forall j :: i < j < n ==> last[j] == steps[j];
          assert BroughtNothing(before, last, i);
        }
      }
    }
  }

  // ----- The vault itself -----

  class Vault {
    var current: map<string, Info>
    var invalid: map<string, seq<Info>>
    var nextExpiration: Option<int>
    var ready: bool

    ghost function Now(): Store
      reads this
    {
      Store(current, invalid, nextExpiration, ready)
    }

    ghost predicate Valid()
      reads this
    {
      Inv(Now())
    }

    constructor (src: map<string, Info>, now: int)
      ensures Valid() && Created(src, now, Now())
    {
      current, invalid, nextExpiration, ready := map[], map[], None, false;
      new;
      UpdateConverted(src);
      assert current == src;
      var empty := IsEmpty(now);
      ready := !empty;
    }

    /** Nothing is left that is not expired. */
    method IsEmpty(now: int) returns (empty: bool)
      ensures empty <==> forall key :: key in current ==> IsExpired(current[key], now)
    {
      var left := current.Keys;
      while left != {}
        invariant left <= current.Keys
        invariant forall key :: key in current && key !in left ==> IsExpired(current[key], now)
      {
        var key :| key in left;
        var expiration := current[key].context.expiration;
        if expiration.None? || now < expiration.value {
          return false;
        }
        left := left - {key};
      }
      return true;
    }

    method UpdateExpiration()
      modifies this`nextExpiration
      ensures IsNearest(nextExpiration, current)
    {
      nextExpiration := None;
      var left := current.Keys;
      while left != {}
        invariant left <= current.Keys
        invariant nextExpiration.None? ==> forall key :: key in current && key !in left ==>
          current[key].context.expiration.None?
        invariant nextExpiration.Some? ==>
                    && (exists key :: key in current && key !in left
                         && current[key].context.expiration == nextExpiration)
                    && (forall key :: key in current && key !in left && current[key].context.expiration.Some? ==>
                          nextExpiration.value <= current[key].context.expiration.value)
      {
        var key :| key in left;
        var expiration := current[key].context.expiration;
        if expiration.Some? && (nextExpiration.None? || expiration.value < nextExpiration.value) {
          nextExpiration := expiration;
        }
        left := left - {key};
      }
    }

    method IsKnownInvalid(key: string, info: Info) returns (known: bool)
      ensures known <==> Listed(info, History(invalid, key))
    {
      var infos := History(invalid, key);
      var i := 0;
      while i < |infos|
        invariant 0 <= i <= |infos|
        invariant forall j :: 0 <= j < i ==> !Equal(info, infos[j])
      {
        if info.context == infos[i].context {
          return true;
        }
        i := i + 1;
      }
      return false;
    }

    method UpdateConverted(src: map<string, Info>)
      modifies this`current, this`nextExpiration
      ensures current == old(current) + Accepted(old(Now()), src) && IsNearest(nextExpiration, current)
    {
      var left := src.Keys;
      while left != {}
        invariant left <= src.Keys
        invariant forall key ::
                    key in current <==> key in old(current) || (key in Accepted(old(Now()), src) && key !in left)
        invariant forall key :: key in current ==>
                    current[key] == if key in Accepted(old(Now()), src) && key !in left then src[key]
                      else old(current)[key]
      {
        var key :| key in left;
        var known := IsKnownInvalid(key, src[key]);
        if !known {
          current := current[key := src[key]];
        }
        left := left - {key};
      }
      assert current == old(current) + Accepted(old(Now()), src);
      UpdateExpiration();
    }

    /** Under the condition; all those that wait for the readiness go on after that. */
    method Populate(src: map<string, Info>)
      requires Valid()
      modifies this
      ensures Valid() && Next(old(Now()), Step.Populate(src), Now()) && ready
    {
      UpdateConverted(src);
      ready := true;
      StepKeeps(old(Now()), Step.Populate(src), Now());
    }

    /** Until it waits for the re-authentication, if it has to. */
    method Invalidate(key: string, info: Info) returns (waits: bool)
      requires Valid()
      modifies this
      ensures Valid() && Next(old(Now()), Step.Invalidate(key, info), Now())
      ensures waits <==> current == map[]
    {
      if key in current && current[key].reference == info.reference {
        var history := History(invalid, key);
        invalid := invalid[key := Last(history, 2) + [current[key]]];
        current := current - {key};
        UpdateExpiration();
      }
      waits := current == map[];
      if waits {
        ready := false;
      }
      StepKeeps(old(Now()), Step.Invalidate(key, info), Now());
    }

    /** Until it waits for the re-authentication, if the last of the credentials have just expired. */
    method Expire(now: int) returns (waits: bool)
      requires Valid()
      modifies this
      ensures Valid() && Next(old(Now()), Step.Expire(now), Now())
      ensures waits <==> old(current) != map[] && current == map[]
    {
      NothingToExpireExactly(Now(), now);
      var expired := false;
      if nextExpiration.Some? && nextExpiration.value <= now {
        var left := current.Keys;
        while left != {}
          invariant left <= current.Keys <= old(current).Keys
          invariant forall key :: key in old(current) ==>
                      (key in current <==> key in left || !IsExpired(old(current)[key], now))
          invariant forall key :: key in current ==> current[key] == old(current)[key]
          invariant if expired then old(current) != map[] else current == old(current)
          modifies this`current
          decreases |left|
        {
          var key :| key in left;
          left := left - {key};
          if IsExpired(current[key], now) {
            current := current - {key};
            expired := true;
            assert key in old(current) && key !in current;
          }
        }
        UpdateExpiration();
      }
      assert current == Unexpired(old(current), now);
      waits := expired && current == map[];
      if waits {
        ready := false;
      }
      StepKeeps(old(Now()), Step.Expire(now), Now());
    }

    /** One of the credentials of the highest priority, or none if the client is to fail. */
    method Select() returns (selected: Option<string>)
      ensures selected.None? <==> current == map[]
      ensures selected.Some? ==> selected.value in current
      ensures selected.Some? ==>
                forall key :: key in current ==>
                  current[key].context.priority <= current[selected.value].context.priority
    {
      selected := None;
      var left := current.Keys;
      while left != {}
        invariant left <= current.Keys
        invariant selected.None? <==> left == current.Keys
        invariant selected.Some? ==> selected.value in current && forall key :: key in current && key !in left ==>
                    current[key].context.priority <= current[selected.value].context.priority
      {
        var key :| key in left;
        if selected.None? || current[selected.value].context.priority < current[key].context.priority {
          selected := Some(key);
        }
        left := left - {key};
      }
    }

    /** What is given to a client at that time is not expired, and was not reported as failed. */
    method Choose(now: int) returns (chosen: Option<Info>)
      requires Valid() && ready
      modifies this
      ensures Valid() && Next(old(Now()), Step.Expire(now), Now())
      ensures chosen.None? <==> current == map[]
      ensures chosen.Some? ==> !IsExpired(chosen.value, now)
      ensures chosen.Some? ==>
                exists key :: key in current && current[key] == chosen.value
                  && !Listed(chosen.value, History(invalid, key))
    {
      var waits := Expire(now);
      var key := Select();
      chosen := if key.Some? then Some(current[key.value]) else None;
    }
  }
}

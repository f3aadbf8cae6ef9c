/** Patching of an object while the others write to it too: kopf/_cogs/clients/patching.py,
    and what remains for the next cycle, as in kopf/_core/reactor/processing.py. */
module Patching {
  import opened Wrappers
  import opened Trees
  import opened MergePatches

  /** An object without its resource version: the status is apart, as it can be a subresource. */
  datatype Body = Body(main: map<string, Value>, status: Option<Value>)

  /** A body as it was once read from the server, with its version. */
  datatype Seen = Seen(body: Body, version: nat)

  /** A transformation function queued in a patch. */
  datatype Fn = Fn(id: nat, run: Body -> Body)

  function Applied(fns: seq<Fn>, b: Body): Body {
    if fns == [] then b else Applied(fns[1..], fns[0].run(b))
  }

  /** An operation of a JSON-patch: inside of one part, or a "move" that takes a value out of one part and puts it
      into the other. Its path is the one where the value is put. */
  datatype Op =
    | OnMain(change: map<string, Value> -> map<string, Value>)
    | OnStatus(alter: Option<Value> -> Option<Value>)
    | MoveToStatus(takeMain: map<string, Value> -> (map<string, Value>, Value),
      putStatus: (Option<Value>, Value) -> Option<Value>)
    | MoveToMain(takeStatus: Option<Value> -> (Option<Value>, Value),
      putMain: (map<string, Value>, Value) -> map<string, Value>)

  predicate IsStatusOp(op: Op) { op.OnStatus? || op.MoveToStatus? }

  predicate Crosses(op: Op) { op.MoveToStatus? || op.MoveToMain? }

  function ApplyOp(op: Op, b: Body): Body {
    match op
    case OnMain(change) => b.(main := change(b.main))
    case OnStatus(alter) => b.(status := alter(b.status))
    case MoveToStatus(take, put) => Body(take(b.main).0, put(b.status, take(b.main).1))
    case MoveToMain(take, put) => Body(put(b.main, take(b.status).1), take(b.status).0)
  }

  function ApplyOps(ops: seq<Op>, b: Body): Body {
    if ops == [] then b else ApplyOps(ops[1..], ApplyOp(ops[0], b))
  }

  function BodyOps(ops: seq<Op>): seq<Op> {
    if ops == [] then [] else (if IsStatusOp(ops[0]) then [] else [ops[0]]) + BodyOps(ops[1..])
  }

  function StatusOps(ops: seq<Op>): seq<Op> {
    if ops == [] then [] else (if IsStatusOp(ops[0]) then [ops[0]] else []) + StatusOps(ops[1..])
  }

  /** The library that makes the JSON-patch of two bodies: it is assumed to make the right one, and nothing for equal
      bodies. */
  datatype Differ = Differ(diff: (Body, Body) -> seq<Op>) {
    ghost predicate Lawful() {
      && (forall a, b :: ApplyOps(diff(a, b), a) == b)
      && (forall a :: diff(a, a) == [])
    }
  }

  // ----- The server -----

  /** All the versions of the object; the version is the number in the history. */
  datatype Server = Server(history: seq<Body>, gone: bool) {
    predicate Valid() { history != [] }

    function Version(): nat
      requires Valid()
    {
      |history| - 1
    }

    function Current(): Body
      requires Valid()
    {
      history[Version()]
    }

    predicate Knows(seen: Seen) {
      seen.version < |history| && history[seen.version] == seen.body
    }
  }

  /** What happens just before an API call: the writes of the others, the deletion; or the call is refused anyway. */
  datatype Weather = Weather(writes: seq<Body>, deleted: bool, refused: bool)

  datatype Request =
    | MergeMain(patch: map<string, Value>)
    | MergeStatus(statusPatch: Value)
    | JsonMain(test: nat, ops: seq<Op>)
    | JsonStatus(test: nat, ops: seq<Op>)

  datatype Reply = Success(seen: Seen) | NotFound | Unprocessable

  function MergedStatus(status: Option<Value>, patch: Value): Option<Value> {
    if patch.Null? then None else Some(MergePatch(if status.Some? then status.value else Null, patch))
  }

  function Merged(b: Body, patch: map<string, Value>): Body {
    Body(MergePatch(Obj(b.main), Obj(patch - {"status"})).members,
         if "status" in patch then MergedStatus(b.status, patch["status"]) else b.status)
  }

  /** The main endpoint ignores the status if it is a subresource, and the other one ignores all but the status. */
  function Requested(sub: bool, b: Body, version: nat, request: Request): Option<Body> {
    match request
    case MergeMain(patch) => Some(if sub then Merged(b, patch).(status := b.status) else Merged(b, patch))
    case MergeStatus(patch) => Some(b.(status := MergedStatus(b.status, patch)))
    case JsonMain(test, ops) =>
      if test != version then None
      else Some(if sub then ApplyOps(ops, b).(status := b.status) else ApplyOps(ops, b))
    case JsonStatus(test, ops) =>
      if test != version then None else Some(b.(status := ApplyOps(ops, b).status))
  }

  function Before(server: Server, w: Weather): Server {
    Server(server.history + w.writes, server.gone || w.deleted)
  }

  /** One API call; the version does not change if nothing is changed. */
  function Call(sub: bool, server: Server, w: Weather, request: Request): (r: (Server, Reply))
    requires server.Valid()
    ensures r.0.Valid() && server.history <= r.0.history
    ensures r.1.Success? ==> r.0.Knows(r.1.seen) && r.1.seen.version == r.0.Version()
    ensures r.1.NotFound? ==> r.0.gone
    ensures r.1.Unprocessable? ==> r.0 == Before(server, w)
  {
    var s := Before(server, w);
    var b := Requested(sub, s.Current(), s.Version(), request);
    if s.gone then (s, NotFound)
    else if w.refused || b.None? then (s, Unprocessable)
    else if b.value == s.Current() then (s, Success(Seen(b.value, s.Version())))
    else (Server(s.history + [b.value], false), Success(Seen(b.value, s.Version() + 1)))
  }

  // ----- The patching -----

  datatype Patch = Patch(dict: map<string, Value>, fns: seq<Fn>)

  /** Raised is for the refusal that is not expected there; it escapes to the caller. */
  datatype Result = Done(seen: Option<Seen>, remaining: seq<Fn>) | Raised

  /** `made` is the body that the operations were made of, if it has come to that. */
  datatype Outcome = Outcome(server: Server, result: Result, made: Option<Seen>)

  datatype Weathers = Weathers(mergeMain: Weather, mergeStatus: Weather, jsonMain: Weather, jsonStatus: Weather)

  /** The merge-patch of the body, if there is anything for it, and then of the status. */
  function MergingBody(
    sub: bool, server: Server, patch: Patch, original: Seen, differ: Differ, w: Weathers
  ): (o: Outcome)
    requires server.Valid()
    ensures o.server.Valid()
  {
    var bodyPatch := if sub then patch.dict - {"status"} else patch.dict;
    if bodyPatch != map[] then
      var (s, reply) := Call(sub, server, w.mergeMain, MergeMain(bodyPatch));
      match reply
      case Success(seen) => MergingStatus(sub, s, patch, original, Some(seen), differ, w)
      case NotFound => Outcome(s, Done(None, []), None)
      case Unprocessable => Outcome(s, Raised, None)
    else MergingStatus(sub, server, patch, original, None, differ, w)
  }

  function MergingStatus(
    sub: bool, server: Server, patch: Patch, original: Seen, patched: Option<Seen>, differ: Differ, w: Weathers
  ): (o: Outcome)
    requires server.Valid()
    ensures o.server.Valid()
  {
    if sub && "status" in patch.dict && !patch.dict["status"].Null? then
      var (s, reply) := Call(sub, server, w.mergeStatus, MergeStatus(patch.dict["status"]));
      match reply
      case Success(seen) => JsonPatching(sub, s, patch.fns, original, Some(seen), differ, w)
      case NotFound => Outcome(s, Done(None, []), None)
      case Unprocessable => Outcome(s, Raised, None)
    else JsonPatching(sub, server, patch.fns, original, patched, differ, w)
  }

  function OpsFor(differ: Differ, fns: seq<Fn>, b: Body): seq<Op> {
    if fns == [] then [] else differ.diff(b, Applied(fns, b))
  }

  function BodyPart(sub: bool, ops: seq<Op>): seq<Op> { if sub then BodyOps(ops) else ops }

  function StatusPart(sub: bool, ops: seq<Op>): seq<Op> { if sub then StatusOps(ops) else [] }

  /** The operations are made once, of the freshest body known; then those of the body are sent. */
  function JsonPatching(
    sub: bool, server: Server, fns: seq<Fn>, original: Seen, patched: Option<Seen>, differ: Differ, w: Weathers
  ): (o: Outcome)
    requires server.Valid()
    ensures o.server.Valid()
  {
    var latest := if patched.Some? then patched.value else original;
    var ops := OpsFor(differ, fns, latest.body);
    var o := JsonPatchingBody(sub, server, fns, latest, patched, BodyPart(sub, ops), StatusPart(sub, ops), w);
    o.(made := Some(latest))
  }

  function JsonPatchingBody(
    sub: bool, server: Server, fns: seq<Fn>, latest: Seen, patched: Option<Seen>,
    bodyOps: seq<Op>, statusOps: seq<Op>, w: Weathers
  ): (o: Outcome)
    requires server.Valid()
    ensures o.server.Valid()
  {
    if bodyOps != [] then
      var (s, reply) := Call(sub, server, w.jsonMain, JsonMain(latest.version, bodyOps));
      match reply
      case Success(seen) => JsonPatchingStatus(sub, s, fns, seen, Some(seen), statusOps, w)
      case NotFound => Outcome(s, Done(None, []), None)
      case Unprocessable => Outcome(s, Done(patched, fns), None)
    else JsonPatchingStatus(sub, server, fns, latest, patched, statusOps, w)
  }

  function JsonPatchingStatus(
    sub: bool, server: Server, fns: seq<Fn>, latest: Seen, patched: Option<Seen>, statusOps: seq<Op>, w: Weathers
  ): (o: Outcome)
    requires server.Valid()
    ensures o.server.Valid()
  {
    if statusOps != [] then
      var (s, reply) := Call(sub, server, w.jsonStatus, JsonStatus(latest.version, statusOps));
      match reply
      case Success(seen) => Outcome(s, Done(Some(seen), []), None)
      case NotFound => Outcome(s, Done(None, []), None)
      case Unprocessable => Outcome(s, Done(patched, fns), None)
    else Outcome(server, Done(patched, []), None)
  }

  function Patched(sub: bool, server: Server, patch: Patch, original: Seen, differ: Differ, w: Weathers): (o: Outcome)
    requires server.Valid()
    ensures o.server.Valid()
  {
    MergingBody(sub, server, patch, original, differ, w)
  }

  /** The server as the operator sees it: the API calls change it, and so do the others. */
  class Cluster {
    var server: Server
    const sub: bool

    constructor (server: Server, sub: bool)
      ensures this.server == server && this.sub == sub
    {
      this.server, this.sub := server, sub;
    }

    method Request(w: Weather, request: Request) returns (reply: Reply)
      requires server.Valid()
      modifies this
      ensures (server, reply) == Call(sub, old(server), w, request)
    {
      var r := Call(sub, server, w, request);
      server, reply := r.0, r.1;
    }

    /** `patch_obj` itself. */
    method PatchObj(patch: Patch, original: Seen, differ: Differ, w: Weathers) returns (result: Result)
      requires server.Valid()
      modifies this
      ensures var o := Patched(sub, old(server), patch, original, differ, w); server == o.server && result == o.result
      ensures IsKept(sub, old(server), patch, original, differ, w, server, result)
    {
      PromiseIsKept(sub, server, patch, original, differ, w);
      var bodyPatch, statusPatch := patch.dict, None;
      if sub {
        statusPatch := if "status" in bodyPatch && !bodyPatch["status"].Null? then Some(bodyPatch["status"]) else None;
        bodyPatch := bodyPatch - {"status"};
      }

      var patchedBody: Option<Seen> := None;
      if bodyPatch != map[] {
        var reply := Request(w.mergeMain, MergeMain(bodyPatch));
        if reply.NotFound? { return Done(None, []); }
        if reply.Unprocessable? { return Raised; }
        patchedBody := Some(reply.seen);
      }
      if statusPatch.Some? {
        var reply := Request(w.mergeStatus, MergeStatus(statusPatch.value));
        if reply.NotFound? { return Done(None, []); }
        if reply.Unprocessable? { return Raised; }
        patchedBody := Some(reply.seen);
      }

      var freshBody := if patchedBody.Some? then patchedBody.value else original;
      var ops := if patch.fns == [] then [] else differ.diff(freshBody.body, Applied(patch.fns, freshBody.body));
      var bodyOps := if sub then BodyOps(ops) else ops;
      var statusOps := if sub then StatusOps(ops) else [];
      if bodyOps != [] {
        var reply := Request(w.jsonMain, JsonMain(freshBody.version, bodyOps));
        if reply.NotFound? { return Done(None, []); }
        if reply.Unprocessable? { return Done(patchedBody, patch.fns); }
        patchedBody, freshBody := Some(reply.seen), reply.seen;
      }
      if statusOps != [] {
        var reply := Request(w.jsonStatus, JsonStatus(freshBody.version, statusOps));
        if reply.NotFound? { return Done(None, []); }
        if reply.Unprocessable? { return Done(patchedBody, patch.fns); }
        patchedBody := Some(reply.seen);
      }
      return Done(patchedBody, []);
    }
  }

  // ----- What becomes of the queued functions -----

  lemma {:induction false} BodyOpsAreEnough(ops: seq<Op>, b: Body, c: Body)
    requires forall i :: 0 <= i < |ops| ==> !Crosses(ops[i])
    requires c.main == b.main
    ensures ApplyOps(BodyOps(ops), c).main == ApplyOps(ops, b).main
    ensures ApplyOps(BodyOps(ops), c).status == c.status
    decreases |ops|
  {
    if ops != [] {
      var rest := BodyOps(ops[1..]);
      if ops[0].OnMain? {
        assert ([ops[0]] + rest)[1..] == rest;
        BodyOpsAreEnough(ops[1..], ApplyOp(ops[0], b), ApplyOp(ops[0], c));
      } else {
        assert [] + rest == rest;
        BodyOpsAreEnough(ops[1..], ApplyOp(ops[0], b), c);
      }
    }
  }

  lemma {:induction false} StatusOpsAreEnough(ops: seq<Op>, b: Body, c: Body)
    requires forall i :: 0 <= i < |ops| ==> !Crosses(ops[i])
    requires c.status == b.status
    ensures ApplyOps(StatusOps(ops), c).status == ApplyOps(ops, b).status
    decreases |ops|
  {
    if ops != [] {
      var rest := StatusOps(ops[1..]);
      if ops[0].OnStatus? {
        assert ([ops[0]] + rest)[1..] == rest;
        StatusOpsAreEnough(ops[1..], ApplyOp(ops[0], b), ApplyOp(ops[0], c));
      } else {
        assert [] + rest == rest;
        StatusOpsAreEnough(ops[1..], ApplyOp(ops[0], b), c);
      }
    }
  }

  /** What the operations come to when each endpoint takes only its own part, the body first. */
  function SplitBody(sub: bool, ops: seq<Op>, b: Body): Body {
    if !sub then ApplyOps(ops, b)
    else
      var c := ApplyOps(BodyOps(ops), b).(status := b.status);
      c.(status := ApplyOps(StatusOps(ops), c).status)
  }

  /** The operations of this very call lose nothing by being split. */
  predicate Splits(sub: bool, differ: Differ, fns: seq<Fn>, b: Body) {
    SplitBody(sub, OpsFor(differ, fns, b), b) == Applied(fns, b)
  }

  /** It is enough that nothing is moved between the parts in this call. */
  lemma UncrossedSplits(sub: bool, differ: Differ, fns: seq<Fn>, b: Body)
    requires differ.Lawful()
    requires sub ==> forall i :: 0 <= i < |OpsFor(differ, fns, b)| ==> !Crosses(OpsFor(differ, fns, b)[i])
    ensures Splits(sub, differ, fns, b)
  {
    var ops := OpsFor(differ, fns, b);
    assert ApplyOps(ops, b) == Applied(fns, b);
    if sub {
      BodyOpsAreEnough(ops, b, b);
      StatusOpsAreEnough(ops, b, ApplyOps(BodyOps(ops), b).(status := b.status));
    }
  }

  lemma OneOp(op: Op, b: Body)
    ensures BodyOps([op]) == (if IsStatusOp(op) then [] else [op])
      && StatusOps([op]) == (if IsStatusOp(op) then [op] else [])
    ensures ApplyOps([op], b) == ApplyOp(op, b)
  {
    assert [op][1..] == [];
    assert BodyOps([]) == [] && StatusOps([]) == [];
    assert ApplyOps([], ApplyOp(op, b)) == ApplyOp(op, b);
  }

  /** A single move between the parts loses nothing exactly if it takes nothing out of its source. */
  lemma MoveSplitsExactly(differ: Differ, fns: seq<Fn>, b: Body)
    requires differ.Lawful() && |OpsFor(differ, fns, b)| == 1 && Crosses(OpsFor(differ, fns, b)[0])
    ensures var op := OpsFor(differ, fns, b)[0];
            Splits(true, differ, fns, b) <==>
              if op.MoveToStatus? then op.takeMain(b.main).0 == b.main else op.takeStatus(b.status).0 == b.status
  {
    var ops := OpsFor(differ, fns, b);
    assert ops == [ops[0]];
    OneOp(ops[0], b);
    assert ApplyOps(ops, b) == Applied(fns, b);
    if ops[0].MoveToMain? {
      assert ApplyOps([], b.(main := ApplyOp(ops[0], b).main)) == b.(main := ApplyOp(ops[0], b).main);
    } else {
      assert ApplyOps([], b) == b;
      OneOp(ops[0], b.(status := b.status));
    }
  }

  // ----- A move among other operations -----

  /** What the operations inside of the body make of it. */
  function MainOf(ops: seq<Op>, main: map<string, Value>): map<string, Value> {
    if ops == [] then main else MainOf(ops[1..], if ops[0].OnMain? then ops[0].change(main) else main)
  }

  /** What the operations inside of the status make of it. */
  function StatusOf(ops: seq<Op>, status: Option<Value>): Option<Value> {
    if ops == [] then status else StatusOf(ops[1..], if ops[0].OnStatus? then ops[0].alter(status) else status)
  }

  predicate Uncrossed(ops: seq<Op>) { forall i :: 0 <= i < |ops| ==> !Crosses(ops[i]) }

  lemma {:induction false} UncrossedParts(ops: seq<Op>, b: Body)
    requires Uncrossed(ops)
    ensures ApplyOps(ops, b) == Body(MainOf(ops, b.main), StatusOf(ops, b.status))
    ensures ApplyOps(BodyOps(ops), b) == b.(main := MainOf(ops, b.main))
    ensures ApplyOps(StatusOps(ops), b) == b.(status := StatusOf(ops, b.status))
    decreases |ops|
  {
    if ops != [] {
      var op, rest := ops[0], ops[1..];
      UncrossedParts(rest, ApplyOp(op, b));
      UncrossedParts(rest, b);
      assert ([op] + BodyOps(rest))[1..] == BodyOps(rest) && ([op] + StatusOps(rest))[1..] == StatusOps(rest);
      assert [] + BodyOps(rest) == BodyOps(rest) && [] + StatusOps(rest) == StatusOps(rest);
    }
  }

  lemma {:induction false} AppliedInTurn(xs: seq<Op>, ys: seq<Op>, b: Body)
    ensures ApplyOps(xs + ys, b) == ApplyOps(ys, ApplyOps(xs, b))
    decreases |xs|
  {
    if xs == [] {
      assert [] + ys == ys;
    } else {
      assert (xs + ys)[1..] == xs[1..] + ys;
      AppliedInTurn(xs[1..], ys, ApplyOp(xs[0], b));
    }
  }

  lemma {:induction false} PartsOfSum(xs: seq<Op>, ys: seq<Op>)
    ensures BodyOps(xs + ys) == BodyOps(xs) + BodyOps(ys)
    ensures StatusOps(xs + ys) == StatusOps(xs) + StatusOps(ys)
    decreases |xs|
  {
    if xs == [] {
      assert [] + ys == ys;
      assert [] + BodyOps(ys) == BodyOps(ys) && [] + StatusOps(ys) == StatusOps(ys);
    } else {
      assert (xs + ys)[1..] == xs[1..] + ys && (xs + ys)[0] == xs[0];
      PartsOfSum(xs[1..], ys);
      var first, other := if IsStatusOp(xs[0]) then [] else [xs[0]], if IsStatusOp(xs[0]) then [xs[0]] else [];
      assert first + (BodyOps(xs[1..]) + BodyOps(ys)) == first + BodyOps(xs[1..]) + BodyOps(ys);
      assert other + (StatusOps(xs[1..]) + StatusOps(ys)) == other + StatusOps(xs[1..]) + StatusOps(ys);
    }
  }

  /** The other operations do not touch what the move takes; with the body sent first, these are the later ones of the
      body, or all those of the status. */
  predicate Spares(xs: seq<Op>, move: Op, ys: seq<Op>, b: Body)
    requires Crosses(move)
  {
    var m, n := MainOf(xs, b.main), StatusOf(xs, b.status);
    if move.MoveToStatus? then
      move.takeMain(MainOf(ys, m)) == (MainOf(ys, move.takeMain(m).0), move.takeMain(m).1)
    else
      && move.takeStatus(b.status).1 == move.takeStatus(n).1
      && move.takeStatus(StatusOf(ys, n)).0 == StatusOf(ys, move.takeStatus(n).0)
  }

  /** There would be nothing to take out of the source of the move after all the other operations. */
  predicate TakesNothing(xs: seq<Op>, move: Op, ys: seq<Op>, b: Body)
    requires Crosses(move)
  {
    var m, n := MainOf(xs + ys, b.main), StatusOf(xs + ys, b.status);
    if move.MoveToStatus? then move.takeMain(m).0 == m else move.takeStatus(n).0 == n
  }

  lemma {:induction false} PartsInTurn(xs: seq<Op>, ys: seq<Op>, main: map<string, Value>, status: Option<Value>)
    ensures MainOf(xs + ys, main) == MainOf(ys, MainOf(xs, main))
    ensures StatusOf(xs + ys, status) == StatusOf(ys, StatusOf(xs, status))
    decreases |xs|
  {
    if xs == [] {
      assert [] + ys == ys;
    } else {
      assert (xs + ys)[1..] == xs[1..] + ys;
      PartsInTurn(xs[1..], ys, if xs[0].OnMain? then xs[0].change(main) else main,
                  if xs[0].OnStatus? then xs[0].alter(status) else status);
    }
  }

  /** What the move makes with the others around it, and what is made of it when the parts are sent apart. */
  lemma MoveInTheMiddle(xs: seq<Op>, move: Op, ys: seq<Op>, b: Body)
    requires Uncrossed(xs) && Uncrossed(ys) && Crosses(move)
    ensures var ops := xs + [move] + ys;
            var moved := ApplyOp(move, Body(MainOf(xs, b.main), StatusOf(xs, b.status)));
            && ApplyOps(ops, b) == Body(MainOf(ys, moved.main), StatusOf(ys, moved.status))
            && (move.MoveToStatus? ==>
                  && BodyOps(ops) == BodyOps(xs) + BodyOps(ys)
                  && StatusOps(ops) == StatusOps(xs) + [move] + StatusOps(ys))
            && (move.MoveToMain? ==>
                  && BodyOps(ops) == BodyOps(xs) + [move] + BodyOps(ys)
                  && StatusOps(ops) == StatusOps(xs) + StatusOps(ys))
  {
    PartsOfSum(xs + [move], ys);
    PartsOfSum(xs, [move]);
    AppliedInTurn(xs + [move], ys, b);
    AppliedInTurn(xs, [move], b);
    UncrossedParts(xs, b);
    OneOp(move, ApplyOps(xs, b));
    UncrossedParts(ys, ApplyOps(xs + [move], b));
    assert BodyOps(xs) + [] == BodyOps(xs) && StatusOps(xs) + [] == StatusOps(xs);
  }

  /** A part with the move in the middle of it, and a part without it. */
  lemma PartsWithMove(xs: seq<Op>, move: Op, ys: seq<Op>, c: Body)
    requires Uncrossed(xs) && Uncrossed(ys) && Crosses(move)
    ensures ApplyOps(BodyOps(xs) + BodyOps(ys), c) == c.(main := MainOf(ys, MainOf(xs, c.main)))
    ensures ApplyOps(StatusOps(xs) + StatusOps(ys), c) == c.(status := StatusOf(ys, StatusOf(xs, c.status)))
    ensures var d := ApplyOp(move, c.(main := MainOf(xs, c.main)));
            ApplyOps(BodyOps(xs) + [move] + BodyOps(ys), c) == d.(main := MainOf(ys, d.main))
    ensures var d := ApplyOp(move, c.(status := StatusOf(xs, c.status)));
            ApplyOps(StatusOps(xs) + [move] + StatusOps(ys), c) == d.(status := StatusOf(ys, d.status))
  {
    var d, e := ApplyOp(move, c.(main := MainOf(xs, c.main))), ApplyOp(move, c.(status := StatusOf(xs, c.status)));
    UncrossedParts(xs, c);
    UncrossedParts(ys, c.(main := MainOf(xs, c.main)));
    UncrossedParts(ys, c.(status := StatusOf(xs, c.status)));
    UncrossedParts(ys, d);
    UncrossedParts(ys, e);
    AppliedInTurn(BodyOps(xs), BodyOps(ys), c);
    AppliedInTurn(StatusOps(xs), StatusOps(ys), c);
    AppliedInTurn(BodyOps(xs) + [move], BodyOps(ys), c);
    AppliedInTurn(BodyOps(xs), [move], c);
    AppliedInTurn(StatusOps(xs) + [move], StatusOps(ys), c);
    AppliedInTurn(StatusOps(xs), [move], c);
    OneOp(move, c.(main := MainOf(xs, c.main)));
    OneOp(move, c.(status := StatusOf(xs, c.status)));
  }

  /** With a single move between the parts among any other operations, which do not touch what it takes:
      nothing is lost exactly if the move takes nothing out of its source. */
  lemma OneMoveSplitsExactly(differ: Differ, fns: seq<Fn>, b: Body, xs: seq<Op>, move: Op, ys: seq<Op>)
    requires differ.Lawful() && OpsFor(differ, fns, b) == xs + [move] + ys
    requires Uncrossed(xs) && Uncrossed(ys) && Crosses(move) && Spares(xs, move, ys, b)
    ensures Splits(true, differ, fns, b) <==> TakesNothing(xs, move, ys, b)
  {
    var ops := xs + [move] + ys;
    assert ApplyOps(ops, b) == Applied(fns, b);
    MoveInTheMiddle(xs, move, ys, b);
    PartsWithMove(xs, move, ys, b);
    PartsWithMove(xs, move, ys, ApplyOps(BodyOps(ops), b).(status := b.status));
    PartsInTurn(xs, ys, b.main, b.status);
  }

  /** The functions were applied as a whole to one version of the object, and nobody has written in the middle of it. */
  predicate ReflectedAt(history: seq<Body>, fns: seq<Fn>, v: nat, u: nat) {
    && v <= u <= v + 2 && u < |history|
    && history[u] == Applied(fns, history[v])
    && (u == v + 2 ==> history[v + 1] == Applied(fns, history[v]).(status := history[v].status))
  }

  /** The functions change nothing in this version, or they were applied to it, and not earlier than that. */
  predicate ReflectedFrom(history: seq<Body>, fns: seq<Fn>, v: nat, start: nat) {
    exists u :: v <= u <= v + 2 && ReflectedAt(history, fns, v, u) && (u == v || start <= u)
  }

  /** A successful JSON-patch writes to the very version it was made of, and to no other. */
  lemma JsonPatchIsForItsVersion(sub: bool, server: Server, w: Weather, request: Request, seen: Seen)
    requires server.Valid() && server.Knows(seen)
    requires (request.JsonMain? || request.JsonStatus?) && request.test == seen.version
    requires Call(sub, server, w, request).1.Success?
    ensures server.Version() == seen.version && w.writes == []
    ensures var s := Call(sub, server, w, request).0;
            && server.history <= s.history && s.Version() <= seen.version + 1
            && Some(s.Current()) == Requested(sub, seen.body, seen.version, request)
  {
    var s := Before(server, w);
    assert s.history[seen.version] == server.history[seen.version];
  }

  /** The same for the body and then for the status; nothing is sent if there are no operations. */
  lemma BodyPhase(
    sub: bool, server: Server, fns: seq<Fn>, latest: Seen, patched: Option<Seen>, ops: seq<Op>, w: Weathers
  )
    requires server.Valid() && server.Knows(latest)
    ensures var o := JsonPatchingBody(sub, server, fns, latest, patched, BodyPart(sub, ops), StatusPart(sub, ops), w);
            && server.history <= o.server.history
            && o.result.Done? && (o.result.remaining == [] || o.result.remaining == fns)
            && (o.result.remaining == [] && fns != [] && !o.server.gone ==>
                  if BodyPart(sub, ops) == [] && StatusPart(sub, ops) == [] then o.server == server
                  else && server.Version() == latest.version <= o.server.Version() <= latest.version + 2
                       && o.server.Current() == SplitBody(sub, ops, latest.body)
                       && (o.server.Version() == latest.version + 2 ==>
                             o.server.history[latest.version + 1]
                             == SplitBody(sub, ops, latest.body).(status := latest.body.status)))
  {
    var bodyOps, statusOps := BodyPart(sub, ops), StatusPart(sub, ops);
    if bodyOps != [] {
      var request := JsonMain(latest.version, bodyOps);
      var r := Call(sub, server, w.jsonMain, request);
      if r.1.Success? {
        JsonPatchIsForItsVersion(sub, server, w.jsonMain, request, latest);
      }
    } else {
    }
  }

  /** Either all functions are pending again; or they are reflected in the very version that the operations were made
      of, which is not older than the given body, by the versions that are made in this very call; or the object is
      gone. */
  ghost predicate Accounted(before: Server, fns: seq<Fn>, original: Seen, o: Outcome) {
    && o.server.Valid() && before.history <= o.server.history
    && o.result.Done? && (o.result.remaining == [] || o.result.remaining == fns)
    && (o.result.remaining == [] && fns != [] ==> o.server.gone || Fulfilled(before, fns, original, o))
  }

  predicate Fulfilled(before: Server, fns: seq<Fn>, original: Seen, o: Outcome)
    requires o.server.Valid()
  {
    && o.made.Some? && o.server.Knows(o.made.value) && original.version <= o.made.value.version
    && ReflectedFrom(o.server.history, fns, o.made.value.version, |before.history|)
    && (o.server.Current() == Applied(fns, o.made.value.body) || Applied(fns, o.made.value.body) == o.made.value.body)
  }

  lemma JsonPhase(
    sub: bool, before: Server, server: Server, fns: seq<Fn>, original: Seen, patched: Option<Seen>, differ: Differ,
    w: Weathers
  )
    requires before.Valid() && server.Valid() && before.history <= server.history
    requires differ.Lawful() && server.Knows(original) && original.version < |before.history|
    requires patched.Some? ==> server.Knows(patched.value) && original.version <= patched.value.version
    ensures var o := JsonPatching(sub, server, fns, original, patched, differ, w);
            && o.made == Some(if patched.Some? then patched.value else original)
            && server.history <= o.server.history
            && o.result.Done? && (o.result.remaining == [] || o.result.remaining == fns)
            && (Splits(sub, differ, fns, o.made.value.body) ==> Accounted(before, fns, original, o))
  {
    var latest := if patched.Some? then patched.value else original;
    var ops := OpsFor(differ, fns, latest.body);
    BodyPhase(sub, server, fns, latest, patched, ops, w);
    var o := JsonPatching(sub, server, fns, original, patched, differ, w);
    assert o.server.history[latest.version] == server.history[latest.version];
    if Splits(sub, differ, fns, latest.body) && o.result.remaining == [] && fns != [] && !o.server.gone {
      var u := if BodyPart(sub, ops) == [] && StatusPart(sub, ops) == [] then latest.version else o.server.Version();
      assert ReflectedAt(o.server.history, fns, latest.version, u);
    }
  }

  /** The server refuses a merge-patch as unprocessable, if it comes to that. */
  predicate MergeIsRefused(sub: bool, server: Server, patch: Patch, w: Weathers)
    requires server.Valid()
  {
    var bodyPatch := if sub then patch.dict - {"status"} else patch.dict;
    var first := Before(server, w.mergeMain);
    var after := if bodyPatch != map[] then Call(sub, server, w.mergeMain, MergeMain(bodyPatch)).0 else server;
    || (bodyPatch != map[] && !first.gone && w.mergeMain.refused)
    || (sub && "status" in patch.dict && !patch.dict["status"].Null?
        && !after.gone && !w.mergeStatus.deleted && w.mergeStatus.refused)
  }

  /** Nothing of the functions is lost by splitting the operations of this call, if it comes to them. */
  predicate SplitsHere(sub: bool, differ: Differ, fns: seq<Fn>, o: Outcome) {
    o.made.Some? ==> Splits(sub, differ, fns, o.made.value.body)
  }

  /** Whatever the other writers do: if the operations of this call can be split, the queued functions are accounted for
      if and only if no merge-patch of the same call was refused. */
  lemma PatchingExactly(sub: bool, server: Server, patch: Patch, original: Seen, differ: Differ, w: Weathers)
    requires server.Valid() && differ.Lawful() && server.Knows(original)
    ensures var o := Patched(sub, server, patch, original, differ, w);
            && server.history <= o.server.history
            && (o.result.Raised? <==> MergeIsRefused(sub, server, patch, w))
            && (o.result.Done? ==> o.result.remaining == [] || o.result.remaining == patch.fns)
            && (Accounted(server, patch.fns, original, o) ==> !MergeIsRefused(sub, server, patch, w))
            && (SplitsHere(sub, differ, patch.fns, o) && !MergeIsRefused(sub, server, patch, w) ==>
                  Accounted(server, patch.fns, original, o))
  {
    var bodyPatch := if sub then patch.dict - {"status"} else patch.dict;
    var s, patched := server, None;
    if bodyPatch != map[] {
      var r := Call(sub, server, w.mergeMain, MergeMain(bodyPatch));
      s := r.0;
      patched := if r.1.Success? then Some(r.1.seen) else None;
    }
    if bodyPatch == map[] || patched.Some? {
      assert s.history[original.version] == server.history[original.version];
      StatusMergePhase(sub, server, s, patch, original, patched, differ, w);
    }
  }

  lemma StatusMergePhase(
    sub: bool, before: Server, server: Server, patch: Patch, original: Seen, patched: Option<Seen>, differ: Differ,
    w: Weathers
  )
    requires before.Valid() && server.Valid() && before.history <= server.history
    requires differ.Lawful() && server.Knows(original) && original.version < |before.history|
    requires patched.Some? ==> server.Knows(patched.value) && original.version <= patched.value.version
    ensures var o := MergingStatus(sub, server, patch, original, patched, differ, w);
            && server.history <= o.server.history
            && if sub && "status" in patch.dict && !patch.dict["status"].Null?
                  && !server.gone && !w.mergeStatus.deleted && w.mergeStatus.refused
               then o.result.Raised?
               else && o.result.Done? && (o.result.remaining == [] || o.result.remaining == patch.fns)
                    && (SplitsHere(sub, differ, patch.fns, o) ==> Accounted(before, patch.fns, original, o))
  {
    if sub && "status" in patch.dict && !patch.dict["status"].Null? {
      var r := Call(sub, server, w.mergeStatus, MergeStatus(patch.dict["status"]));
      if r.1.Success? {
        assert r.0.history[original.version] == server.history[original.version];
        JsonPhase(sub, before, r.0, patch.fns, original, Some(r.1.seen), differ, w);
      }
    } else {
      JsonPhase(sub, before, server, patch.fns, original, patched, differ, w);
    }
  }

  predicate IsCalm(w: Weather) { w.writes == [] && !w.deleted && !w.refused }

  /** When nobody interferes, and there is nothing to merge: everything is sent, and the object is what the split
      operations make of it. */
  lemma CalmPhases(
    sub: bool, server: Server, fns: seq<Fn>, latest: Seen, patched: Option<Seen>, ops: seq<Op>, w: Weathers
  )
    requires server.Valid() && !server.gone && server.Knows(latest) && latest.version == server.Version()
    requires IsCalm(w.jsonMain) && IsCalm(w.jsonStatus)
    ensures var o := JsonPatchingBody(sub, server, fns, latest, patched, BodyPart(sub, ops), StatusPart(sub, ops), w);
            && o.result.Done? && o.result.remaining == [] && !o.server.gone
            && o.server.Current() == SplitBody(sub, ops, latest.body)
            && o.result.seen == if BodyPart(sub, ops) == [] && StatusPart(sub, ops) == [] then patched
                                else Some(Seen(o.server.Current(), o.server.Version()))
  {
    var bodyOps, statusOps := BodyPart(sub, ops), StatusPart(sub, ops);
    var s, seen := server, latest;
    if bodyOps != [] {
      var r := Call(sub, server, w.jsonMain, JsonMain(latest.version, bodyOps));
      s, seen := r.0, r.1.seen;
    }
    if statusOps != [] {
    }
  }

  /** The condition is exact: when nobody interferes, the functions of a patch are reflected if and only if
      nothing is lost by splitting the operations of this call. */
  lemma SplittingExactly(sub: bool, server: Server, fns: seq<Fn>, differ: Differ, w: Weathers)
    requires server.Valid() && differ.Lawful() && !server.gone && fns != []
    requires IsCalm(w.jsonMain) && IsCalm(w.jsonStatus)
    ensures var original := Seen(server.Current(), server.Version());
            var o := Patched(sub, server, Patch(map[], fns), original, differ, w);
            && o.result == Done(o.result.seen, []) && !o.server.gone
            && (Accounted(server, fns, original, o) <==> Splits(sub, differ, fns, server.Current()))
  {
    var original := Seen(server.Current(), server.Version());
    var patch := Patch(map[], fns);
    var b, ops := server.Current(), OpsFor(differ, fns, server.Current());
    assert patch.dict - {"status"} == map[];
    var o := Patched(sub, server, patch, original, differ, w);
    assert o == JsonPatching(sub, server, fns, original, None, differ, w);
    CalmPhases(sub, server, fns, original, None, ops, w);
    JsonPhase(sub, server, server, fns, original, None, differ, w);
    if Applied(fns, b) == b {
      assert differ.diff(b, b) == [];
      assert ApplyOps([], b) == b;
    }
  }

  // ----- What is merged -----

  /** The object as one tree, in which the status is a field as all others. */
  function Whole(b: Body): Value {
    Obj(if b.status.Some? then b.main["status" := b.status.value] else b.main)
  }

  /** Cutting of the object into its two parts changes nothing in what a merge-patch makes of it. */
  lemma MergedIsMergePatch(b: Body, patch: map<string, Value>)
    requires "status" !in b.main
    ensures "status" !in Merged(b, patch).main
    ensures Whole(Merged(b, patch)) == MergePatch(Whole(b), Obj(patch))
  {
    var rest := patch - {"status"};
    var left, right := Whole(Merged(b, patch)), MergePatch(Whole(b), Obj(patch));
    forall k ensures k in left.members <==> k in right.members {
    }
    forall k | k in right.members ensures left.members[k] == right.members[k] {
    }
    assert left.members == right.members;
  }

  lemma NothingMerged(b: Body)
    ensures Merged(b, map[]) == b
  {
    var none: map<string, Value> := map[];
    assert none - {"status"} == none;
    assert MergePatch(Obj(b.main), Obj(map[])).members == b.main;
  }

  /** What the patch asks for; a status cannot be dropped where it is a subresource. */
  function Asked(sub: bool, dict: map<string, Value>): map<string, Value> {
    if sub && "status" in dict && dict["status"].Null? then dict - {"status"} else dict
  }

  predicate HasMain(sub: bool, dict: map<string, Value>) {
    if sub then exists k :: k in dict && k != "status" else dict != map[]
  }

  predicate HasStatus(sub: bool, dict: map<string, Value>) { sub && "status" in dict && !dict["status"].Null? }

  /** The part of the patch that goes to the main endpoint; the status stays if it is a subresource. */
  function MainAsked(sub: bool, dict: map<string, Value>): Body -> Body {
    (b: Body) => if sub then Merged(b, dict).(status := b.status) else Merged(b, dict)
  }

  /** The part of the patch that goes to the status endpoint. */
  function StatusAsked(dict: map<string, Value>): Body -> Body {
    (b: Body) => b.(status := Merged(b, dict).status)
  }

  /** The version with the change of the version `v`: the next one, or itself if there is nothing to change. */
  function Turned(history: seq<Body>, v: nat, change: Body -> Body): nat
    requires v < |history|
  {
    if change(history[v]) == history[v] then v else v + 1
  }

  predicate IsTurned(history: seq<Body>, v: nat, change: Body -> Body) {
    && v < |history| && Turned(history, v, change) < |history|
    && history[Turned(history, v, change)] == change(history[v])
  }

  lemma SentToMain(sub: bool, b: Body, version: nat, dict: map<string, Value>)
    ensures Requested(sub, b, version, MergeMain(if sub then dict - {"status"} else dict))
            == Some(MainAsked(sub, dict)(b))
    ensures (if sub then dict - {"status"} else dict) != map[] <==> HasMain(sub, dict)
    ensures !HasMain(sub, dict) ==> MainAsked(sub, dict)(b) == b
  {
    var sent := if sub then dict - {"status"} else dict;
    assert sent - {"status"} == dict - {"status"};
    if sub && HasMain(sub, dict) {
      var k :| k in dict && k != "status";
      assert k in sent;
    }
    if !HasMain(sub, dict) {
      assert sent == map[];
      assert dict - {"status"} == map[];
      NothingMerged(b);
    }
  }

  /** A successful merge-patch changes the version that is just before it, whoever has made it. */
  lemma MergeTurns(sub: bool, server: Server, w: Weather, request: Request, change: Body -> Body)
    requires server.Valid() && Call(sub, server, w, request).1.Success?
    requires var s := Before(server, w); Requested(sub, s.Current(), s.Version(), request) == Some(change(s.Current()))
    ensures var (s, reply) := Call(sub, server, w, request);
            var v := server.Version() + |w.writes|;
            && !s.gone && server.history <= s.history && IsTurned(s.history, v, change)
            && s.Version() == Turned(s.history, v, change) && reply.seen == Seen(s.Current(), s.Version())
  {
    var v := server.Version() + |w.writes|;
    assert Before(server, w).Version() == v;
    assert Call(sub, server, w, request).0.history[v] == Before(server, w).history[v];
  }

  lemma TurnStays(history: seq<Body>, longer: seq<Body>, v: nat, change: Body -> Body)
    requires history <= longer && IsTurned(history, v, change)
    ensures IsTurned(longer, v, change) && Turned(longer, v, change) == Turned(history, v, change)
    ensures longer[Turned(history, v, change)] == history[Turned(history, v, change)]
  {
    assert longer[v] == history[v];
  }

  /** The changes that the call sends with its two merge-patches. */
  function FirstChange(sub: bool, dict: map<string, Value>): Option<Body -> Body> {
    if HasMain(sub, dict) then Some(MainAsked(sub, dict)) else None
  }

  function SecondChange(sub: bool, dict: map<string, Value>): Option<Body -> Body> {
    if HasStatus(sub, dict) then Some(StatusAsked(dict)) else None
  }

  /** The first change was made in the version just before its request, and the second one in the version just before
      that other one; the operations were made of the last version so written. */
  predicate IsMerged(
    first: Option<Body -> Body>, second: Option<Body -> Body>, before: nat, original: Seen, w: Weathers, o: Outcome
  ) {
    var history, v := o.server.history, before + |w.mergeMain.writes|;
    && (first.Some? ==> IsTurned(history, v, first.value))
    && var u := if first.Some? then Turned(history, v, first.value) else before;
       var t := u + |w.mergeStatus.writes|;
       && (second.Some? ==> IsTurned(history, t, second.value))
       && o.made == Some(if second.Some? then Seen(second.value(history[t]), Turned(history, t, second.value))
                         else if first.Some? then Seen(first.value(history[v]), u) else original)
  }

  lemma NoPartsOfNothing(sub: bool, ops: seq<Op>)
    ensures BodyPart(sub, ops) == [] && StatusPart(sub, ops) == [] <==> ops == []
  {
    if ops != [] && sub {
      assert BodyOps(ops) != [] || StatusOps(ops) != [];
    }
  }

  /** What a call returns after the merge-patches: a version of the object that is not older than the merged one; or
      nothing, if the object is gone, or if nothing was merged, and nothing could or had to be written. */
  ghost predicate Returns(fns: seq<Fn>, patched: Option<Seen>, idle: bool, o: Outcome) {
    && o.result.Done? && (idle ==> o.result == Done(patched, []))
    && match o.result.seen
       case None =>
         (o.server.gone && o.result.remaining == []) || (patched.None? && (idle || o.result.remaining == fns))
       case Some(seen) => o.server.Knows(seen) && (patched.Some? ==> patched.value.version <= seen.version)
  }

  lemma JsonStatusAdds(
    sub: bool, server: Server, fns: seq<Fn>, latest: Seen, patched: Option<Seen>, ops: seq<Op>, w: Weathers
  )
    requires server.Valid() && (patched.Some? ==> server.Knows(patched.value))
    ensures var o := JsonPatchingStatus(sub, server, fns, latest, patched, ops, w);
            server.history <= o.server.history && Returns(fns, patched, ops == [], o)
  {
    var o := JsonPatchingStatus(sub, server, fns, latest, patched, ops, w);
    if patched.Some? { assert o.server.history[patched.value.version] == server.history[patched.value.version]; }
  }

  lemma JsonBodyAdds(
    sub: bool, server: Server, fns: seq<Fn>, latest: Seen, patched: Option<Seen>, bodyOps: seq<Op>,
    statusOps: seq<Op>, w: Weathers
  )
    requires server.Valid() && (patched.Some? ==> server.Knows(patched.value))
    ensures var o := JsonPatchingBody(sub, server, fns, latest, patched, bodyOps, statusOps, w);
            server.history <= o.server.history && Returns(fns, patched, bodyOps == [] && statusOps == [], o)
  {
    if bodyOps == [] {
      JsonStatusAdds(sub, server, fns, latest, patched, statusOps, w);
    } else {
      var (s, reply) := Call(sub, server, w.jsonMain, JsonMain(latest.version, bodyOps));
      if patched.Some? { assert s.history[patched.value.version] == server.history[patched.value.version]; }
      if reply.Success? {
        JsonStatusAdds(sub, s, fns, reply.seen, Some(reply.seen), statusOps, w);
      }
    }
  }

  /** The JSON phases only add to the history, and never raise. */
  lemma JsonAdds(
    sub: bool, server: Server, fns: seq<Fn>, original: Seen, patched: Option<Seen>, differ: Differ, w: Weathers
  )
    requires server.Valid() && (patched.Some? ==> server.Knows(patched.value))
    ensures var o := JsonPatching(sub, server, fns, original, patched, differ, w);
            && o.made == Some(if patched.Some? then patched.value else original)
            && server.history <= o.server.history
            && Returns(fns, patched, OpsFor(differ, fns, o.made.value.body) == [], o)
  {
    var latest := if patched.Some? then patched.value else original;
    var ops := OpsFor(differ, fns, latest.body);
    NoPartsOfNothing(sub, ops);
    JsonBodyAdds(sub, server, fns, latest, patched, BodyPart(sub, ops), StatusPart(sub, ops), w);
  }

  lemma StatusIsSent(
    sub: bool, server: Server, patch: Patch, original: Seen, patched: Option<Seen>, differ: Differ, w: Weathers
  )
    requires server.Valid() && HasStatus(sub, patch.dict)
    requires Call(sub, server, w.mergeStatus, MergeStatus(patch.dict["status"])).1.Success?
    ensures var (s, reply) := Call(sub, server, w.mergeStatus, MergeStatus(patch.dict["status"]));
            MergingStatus(sub, server, patch, original, patched, differ, w)
            == JsonPatching(sub, s, patch.fns, original, Some(reply.seen), differ, w)
  {
  }

  /** The second change is made in the version just before its own request. */
  ghost predicate SecondMerged(
    second: Option<Body -> Body>, before: nat, fns: seq<Fn>, original: Seen, patched: Option<Seen>, differ: Differ,
    w: Weathers, o: Outcome
  ) {
    var t := before + |w.mergeStatus.writes|;
    && o.made.Some?
    && (if second.Some? then
          && IsTurned(o.server.history, t, second.value)
          && o.made.value
             == Seen(second.value(o.server.history[t]), Turned(o.server.history, t, second.value))
        else o.made == Some(if patched.Some? then patched.value else original))
    && Returns(fns, if second.Some? then o.made else patched, OpsFor(differ, fns, o.made.value.body) == [], o)
  }

  lemma StatusIsMerged(
    sub: bool, server: Server, patch: Patch, original: Seen, patched: Option<Seen>, change: Body -> Body,
    differ: Differ, w: Weathers
  )
    requires server.Valid() && HasStatus(sub, patch.dict)
    requires var request := MergeStatus(patch.dict["status"]);
             var s := Before(server, w.mergeStatus);
             && Call(sub, server, w.mergeStatus, request).1.Success?
             && Requested(sub, s.Current(), s.Version(), request) == Some(change(s.Current()))
    ensures var r := Call(sub, server, w.mergeStatus, MergeStatus(patch.dict["status"]));
            var o := JsonPatching(sub, r.0, patch.fns, original, Some(r.1.seen), differ, w);
            && server.history <= o.server.history
            && SecondMerged(Some(change), server.Version(), patch.fns, original, patched, differ, w, o)
  {
    var request := MergeStatus(patch.dict["status"]);
    var r := Call(sub, server, w.mergeStatus, request);
    var s, seen := r.0, r.1.seen;
    MergeTurns(sub, server, w.mergeStatus, request, change);
    JsonAdds(sub, s, patch.fns, original, Some(seen), differ, w);
    var o := JsonPatching(sub, s, patch.fns, original, Some(seen), differ, w);
    TurnStays(s.history, o.server.history, server.Version() + |w.mergeStatus.writes|, change);
  }

  lemma RestIsMerged(
    sub: bool, server: Server, patch: Patch, original: Seen, patched: Option<Seen>, differ: Differ, w: Weathers
  )
    requires server.Valid() && (patched.Some? ==> server.Knows(patched.value))
    ensures var o := MergingStatus(sub, server, patch, original, patched, differ, w);
            && server.history <= o.server.history
            && if o.made.None? then o.result.Raised? || (o.server.gone && o.result == Done(None, []))
               else SecondMerged(SecondChange(sub, patch.dict), server.Version(), patch.fns, original, patched,
                                 differ, w, o)
  {
    if !HasStatus(sub, patch.dict) {
      StatusIsNotSent(sub, server, patch, original, patched, differ, w);
      JsonAdds(sub, server, patch.fns, original, patched, differ, w);
    } else if Call(sub, server, w.mergeStatus, MergeStatus(patch.dict["status"])).1.Success? {
      StatusIsSent(sub, server, patch, original, patched, differ, w);
      StatusIsMerged(sub, server, patch, original, patched, StatusAsked(patch.dict), differ, w);
    } else {
      StatusIsRefused(sub, server, patch, original, patched, differ, w);
    }
  }

  lemma StatusIsNotSent(
    sub: bool, server: Server, patch: Patch, original: Seen, patched: Option<Seen>, differ: Differ, w: Weathers
  )
    requires server.Valid() && !HasStatus(sub, patch.dict)
    ensures MergingStatus(sub, server, patch, original, patched, differ, w)
            == JsonPatching(sub, server, patch.fns, original, patched, differ, w)
  {
  }

  lemma StatusIsRefused(
    sub: bool, server: Server, patch: Patch, original: Seen, patched: Option<Seen>, differ: Differ, w: Weathers
  )
    requires server.Valid() && HasStatus(sub, patch.dict)
    requires !Call(sub, server, w.mergeStatus, MergeStatus(patch.dict["status"])).1.Success?
    ensures var o := MergingStatus(sub, server, patch, original, patched, differ, w);
            && server.history <= o.server.history && o.made.None?
            && (o.result.Raised? || (o.server.gone && o.result == Done(None, [])))
  {
  }

  function MainRequest(sub: bool, dict: map<string, Value>): Request {
    MergeMain(if sub then dict - {"status"} else dict)
  }

  /** What the first request leaves for the rest of the call. */
  lemma MainIsSent(sub: bool, server: Server, patch: Patch, original: Seen, differ: Differ, w: Weathers)
    requires server.Valid() && HasMain(sub, patch.dict)
    ensures var o := Patched(sub, server, patch, original, differ, w);
            var (s, reply) := Call(sub, server, w.mergeMain, MainRequest(sub, patch.dict));
            if reply.Success? then o == MergingStatus(sub, s, patch, original, Some(reply.seen), differ, w)
            else o.server == s && o.made.None? && (o.result.Raised? || (s.gone && o.result == Done(None, [])))
  {
    SentToMain(sub, server.Current(), server.Version(), patch.dict);
  }

  lemma MainIsMerged(sub: bool, server: Server, w: Weather, dict: map<string, Value>)
    requires server.Valid() && Call(sub, server, w, MainRequest(sub, dict)).1.Success?
    ensures var (s, reply) := Call(sub, server, w, MainRequest(sub, dict));
            var v, change := server.Version() + |w.writes|, MainAsked(sub, dict);
            && server.history <= s.history && !s.gone
            && IsTurned(s.history, v, change) && s.Version() == Turned(s.history, v, change)
            && reply.seen == Seen(s.Current(), s.Version())
  {
    var b := Before(server, w);
    SentToMain(sub, b.Current(), b.Version(), dict);
    MergeTurns(sub, server, w, MainRequest(sub, dict), MainAsked(sub, dict));
  }

  lemma NothingForMain(sub: bool, server: Server, patch: Patch, original: Seen, differ: Differ, w: Weathers)
    requires server.Valid() && !HasMain(sub, patch.dict)
    ensures Patched(sub, server, patch, original, differ, w)
            == MergingStatus(sub, server, patch, original, None, differ, w)
  {
    SentToMain(sub, server.Current(), server.Version(), patch.dict);
  }

  /** The second change after the first one. */
  lemma MergedInTurn(
    first: Option<Body -> Body>, second: Option<Body -> Body>, server: Server, s: Server, fns: seq<Fn>,
    patched: Option<Seen>, original: Seen, differ: Differ, w: Weathers, o: Outcome
  )
    requires server.Valid() && s.Valid() && server.history <= s.history <= o.server.history
    requires if first.None? then s == server && patched.None?
             else var v := server.Version() + |w.mergeMain.writes|;
                  && IsTurned(s.history, v, first.value) && s.Version() == Turned(s.history, v, first.value)
                  && patched == Some(Seen(s.Current(), s.Version()))
    requires SecondMerged(second, s.Version(), fns, original, patched, differ, w, o)
    ensures IsMerged(first, second, server.Version(), original, w, o)
    ensures Returns(fns, if first.Some? || second.Some? then o.made else None,
                    OpsFor(differ, fns, o.made.value.body) == [], o)
  {
    if first.Some? {
      TurnStays(s.history, o.server.history, server.Version() + |w.mergeMain.writes|, first.value);
    }
  }

  /** Whatever the other writers do: what a call sends is merged into the object as it is just before the request, and
      the functions are applied to what came out of that; unless a merge-patch is refused, or the object is gone. */
  lemma MergesAreFresh(sub: bool, server: Server, patch: Patch, original: Seen, differ: Differ, w: Weathers)
    requires server.Valid()
    ensures var o := Patched(sub, server, patch, original, differ, w);
            && server.history <= o.server.history
            && if o.made.None? then o.result.Raised? || (o.server.gone && o.result == Done(None, []))
               else
                 var first, second := FirstChange(sub, patch.dict), SecondChange(sub, patch.dict);
                 && IsMerged(first, second, server.Version(), original, w, o)
                 && Returns(patch.fns, if first.Some? || second.Some? then o.made else None,
                            OpsFor(differ, patch.fns, o.made.value.body) == [], o)
  {
    var o := Patched(sub, server, patch, original, differ, w);
    var first, second := FirstChange(sub, patch.dict), SecondChange(sub, patch.dict);
    if HasMain(sub, patch.dict) {
      MainIsSent(sub, server, patch, original, differ, w);
      var (s, reply) := Call(sub, server, w.mergeMain, MainRequest(sub, patch.dict));
      if reply.Success? {
        MainIsMerged(sub, server, w.mergeMain, patch.dict);
        RestIsMerged(sub, s, patch, original, Some(reply.seen), differ, w);
        if o.made.Some? { MergedInTurn(first, second, server, s, patch.fns, Some(reply.seen), original, differ, w, o); }
      }
    } else {
      NothingForMain(sub, server, patch, original, differ, w);
      RestIsMerged(sub, server, patch, original, None, differ, w);
      if o.made.Some? { MergedInTurn(first, second, server, server, patch.fns, None, original, differ, w, o); }
    }
  }

  /** What is asked for at the two endpoints is what is asked for as a whole. */
  lemma AskedInTurn(sub: bool, dict: map<string, Value>, b: Body)
    ensures Merged(b, Asked(sub, dict))
            == var c := MainAsked(sub, dict)(b); if HasStatus(sub, dict) then StatusAsked(dict)(c) else c
  {
    if sub && "status" in dict && dict["status"].Null? {
      assert Asked(sub, dict) - {"status"} == dict - {"status"};
    }
    if sub && "status" !in dict {
      assert dict - {"status"} == dict;
    }
  }

  predicate AllCalm(w: Weathers) {
    IsCalm(w.mergeMain) && IsCalm(w.mergeStatus) && IsCalm(w.jsonMain) && IsCalm(w.jsonStatus)
  }

  /** With nobody around: everything is applied, and the last version is returned, if anything was sent. */
  ghost predicate CameTo(sub: bool, differ: Differ, fns: seq<Fn>, merged: Body, sent: bool, o: Outcome) {
    var ops := OpsFor(differ, fns, merged);
    && o.server.Valid() && !o.server.gone && o.server.Current() == SplitBody(sub, ops, merged)
    && o.result == Done(if !sent && ops == [] then None else Some(Seen(o.server.Current(), o.server.Version())), [])
  }

  lemma CalmJson(
    sub: bool, server: Server, fns: seq<Fn>, original: Seen, patched: Option<Seen>, differ: Differ, w: Weathers
  )
    requires server.Valid() && !server.gone && AllCalm(w)
    requires (if patched.Some? then patched.value else original) == Seen(server.Current(), server.Version())
    ensures var o := JsonPatching(sub, server, fns, original, patched, differ, w);
            CameTo(sub, differ, fns, server.Current(), patched.Some?, o)
  {
    var latest := if patched.Some? then patched.value else original;
    var ops := OpsFor(differ, fns, latest.body);
    NoPartsOfNothing(sub, ops);
    CalmPhases(sub, server, fns, latest, patched, ops, w);
    if ops == [] {
      assert SplitBody(sub, ops, latest.body) == latest.body;
      var o := JsonPatchingBody(sub, server, fns, latest, patched, BodyPart(sub, ops), StatusPart(sub, ops), w);
      assert o.server == server;
    }
  }

  lemma CalmCall(sub: bool, server: Server, w: Weather, request: Request, change: Body -> Body)
    requires server.Valid() && !server.gone && IsCalm(w)
    requires Requested(sub, server.Current(), server.Version(), request) == Some(change(server.Current()))
    ensures var (s, reply) := Call(sub, server, w, request);
            && !s.gone && s.Current() == change(server.Current())
            && reply == Success(Seen(s.Current(), s.Version()))
  {
    assert Before(server, w).history == server.history;
  }

  lemma CalmStatus(
    sub: bool, server: Server, patch: Patch, original: Seen, patched: Option<Seen>, differ: Differ, w: Weathers
  )
    requires server.Valid() && !server.gone && AllCalm(w) && HasStatus(sub, patch.dict)
    ensures CameTo(sub, differ, patch.fns, StatusAsked(patch.dict)(server.Current()), true,
                   MergingStatus(sub, server, patch, original, patched, differ, w))
  {
    var request, change := MergeStatus(patch.dict["status"]), StatusAsked(patch.dict);
    var (s, reply) := Call(sub, server, w.mergeStatus, request);
    CalmCall(sub, server, w.mergeStatus, request, change);
    StatusIsSent(sub, server, patch, original, patched, differ, w);
    CalmJson(sub, s, patch.fns, original, Some(reply.seen), differ, w);
  }

  lemma CalmRest(
    sub: bool, server: Server, patch: Patch, original: Seen, patched: Option<Seen>, differ: Differ, w: Weathers
  )
    requires server.Valid() && !server.gone && AllCalm(w)
    requires (if patched.Some? then patched.value else original) == Seen(server.Current(), server.Version())
    ensures CameTo(sub, differ, patch.fns,
                   if HasStatus(sub, patch.dict) then StatusAsked(patch.dict)(server.Current()) else server.Current(),
                   patched.Some? || HasStatus(sub, patch.dict),
                   MergingStatus(sub, server, patch, original, patched, differ, w))
  {
    if HasStatus(sub, patch.dict) {
      CalmStatus(sub, server, patch, original, patched, differ, w);
    } else {
      CalmJson(sub, server, patch.fns, original, patched, differ, w);
    }
  }

  lemma CalmMain(sub: bool, server: Server, patch: Patch, differ: Differ, w: Weathers)
    requires server.Valid() && !server.gone && AllCalm(w)
    ensures CameTo(sub, differ, patch.fns, Merged(server.Current(), Asked(sub, patch.dict)),
                   HasMain(sub, patch.dict) || HasStatus(sub, patch.dict),
                   Patched(sub, server, patch, Seen(server.Current(), server.Version()), differ, w))
  {
    var b, original := server.Current(), Seen(server.Current(), server.Version());
    AskedInTurn(sub, patch.dict, b);
    SentToMain(sub, b, server.Version(), patch.dict);
    if HasMain(sub, patch.dict) {
      var request := MainRequest(sub, patch.dict);
      var (s, reply) := Call(sub, server, w.mergeMain, request);
      CalmCall(sub, server, w.mergeMain, request, MainAsked(sub, patch.dict));
      MainIsSent(sub, server, patch, original, differ, w);
      CalmRest(sub, s, patch, original, Some(reply.seen), differ, w);
    } else {
      NothingForMain(sub, server, patch, original, differ, w);
      CalmRest(sub, server, patch, original, None, differ, w);
    }
  }

  lemma NothingAsked(sub: bool, dict: map<string, Value>)
    ensures HasMain(sub, dict) || HasStatus(sub, dict) <==> Asked(sub, dict) != map[]
  {
    var asked := Asked(sub, dict);
    if asked != map[] {
      var k :| k in asked;
      assert k in dict;
    }
    if sub && HasMain(sub, dict) {
      var k :| k in dict && k != "status";
      assert k in asked;
    }
    if HasStatus(sub, dict) { assert "status" in asked; }
  }

  lemma CameToMeans(sub: bool, differ: Differ, fns: seq<Fn>, m: Body, sent: bool, o: Outcome)
    requires CameTo(sub, differ, fns, m, sent, o)
    ensures o.result.Done? && o.result.remaining == [] && o.server.Valid() && !o.server.gone
    ensures fns == [] ==> o.server.Current() == m
    ensures Splits(sub, differ, fns, m) ==> o.server.Current() == Applied(fns, m)
    ensures o.server.Current() == SplitBody(sub, OpsFor(differ, fns, m), m)
    ensures o.result.seen == if !sent && OpsFor(differ, fns, m) == [] then None
                             else Some(Seen(o.server.Current(), o.server.Version()))
  {
    if fns == [] { assert SplitBody(sub, [], m) == m; }
  }

  /** When nobody interferes, the object becomes what its merge with the patch becomes by the functions, as far as their
      operations can be split; the last version is returned, if anything was sent. */
  lemma CalmPatchingExactly(sub: bool, server: Server, patch: Patch, differ: Differ, w: Weathers)
    requires server.Valid() && !server.gone && AllCalm(w)
    ensures var o := Patched(sub, server, patch, Seen(server.Current(), server.Version()), differ, w);
            var m := Merged(server.Current(), Asked(sub, patch.dict));
            && o.result.Done? && o.result.remaining == [] && !o.server.gone
            && (patch.fns == [] ==> o.server.Current() == m)
            && (Splits(sub, differ, patch.fns, m) ==> o.server.Current() == Applied(patch.fns, m))
            && o.server.Current() == SplitBody(sub, OpsFor(differ, patch.fns, m), m)
            && o.result.seen == if Asked(sub, patch.dict) == map[] && OpsFor(differ, patch.fns, m) == [] then None
                                else Some(Seen(o.server.Current(), o.server.Version()))
  {
    var m := Merged(server.Current(), Asked(sub, patch.dict));
    CalmMain(sub, server, patch, differ, w);
    NothingAsked(sub, patch.dict);
    CameToMeans(sub, differ, patch.fns, m, HasMain(sub, patch.dict) || HasStatus(sub, patch.dict),
                Patched(sub, server, patch, Seen(server.Current(), server.Version()), differ, w));
  }

  /** When nobody interferes: everything that was asked for is merged, and the functions are applied to that, as far as
      their operations can be split; and nothing remains to be done. */
  ghost predicate IsKept(
    sub: bool, before: Server, patch: Patch, original: Seen, differ: Differ, w: Weathers, after: Server, result: Result
  )
    requires before.Valid()
  {
    AllCalm(w) && !before.gone && original == Seen(before.Current(), before.Version()) ==>
      var m := Merged(before.Current(), Asked(sub, patch.dict));
      && after.Valid() && result.Done? && result.remaining == []
      && (Splits(sub, differ, patch.fns, m) ==> after.Current() == Applied(patch.fns, m))
  }

  lemma PromiseIsKept(sub: bool, server: Server, patch: Patch, original: Seen, differ: Differ, w: Weathers)
    requires server.Valid()
    ensures var o := Patched(sub, server, patch, original, differ, w);
            IsKept(sub, server, patch, original, differ, w, o.server, o.result)
  {
    if AllCalm(w) && !server.gone && original == Seen(server.Current(), server.Version()) {
      CalmPatchingExactly(sub, server, patch, differ, w);
    }
  }

  // ----- Many cycles -----

  /** One handling cycle: what it queues, and the body it was given. */
  datatype Cycle = Cycle(dict: map<string, Value>, queued: seq<Fn>, original: Seen, w: Weathers)

  /** Functions that were not returned for the next cycle by that cycle: with the version that the operations were made
      of, and the version from which that cycle could write. */
  datatype Settlement = Settlement(fns: seq<Fn>, cycle: nat, made: Option<Seen>, start: nat)

  /** `remaining` is what the memory of the object keeps between the cycles; the rest is for the specification:
      how many cycles there were, what was settled in them, and what was lost with the failed ones. */
  datatype Ledger = Ledger(server: Server, remaining: seq<Fn>, cycles: nat, settled: seq<Settlement>, lost: seq<Fn>)

  function PatchOf(l: Ledger, c: Cycle): Patch { Patch(c.dict, l.remaining + c.queued) }

  function OutcomeOf(sub: bool, differ: Differ, l: Ledger, c: Cycle): (o: Outcome)
    requires l.server.Valid()
    ensures o.server.Valid()
  {
    Patched(sub, l.server, PatchOf(l, c), c.original, differ, c.w)
  }

  /** If the patching raises, the memory is not updated. */
  function Cycled(sub: bool, differ: Differ, l: Ledger, c: Cycle): (r: Ledger)
    requires l.server.Valid()
    ensures r.server.Valid()
  {
    var o := OutcomeOf(sub, differ, l, c);
    match o.result
    case Raised => Ledger(o.server, l.remaining, l.cycles + 1, l.settled, l.lost + c.queued)
    case Done(_, remaining) =>
      var settlement := Settlement(l.remaining + c.queued, l.cycles, o.made, |l.server.history|);
      Ledger(o.server, remaining, l.cycles + 1, if remaining == [] then l.settled + [settlement] else l.settled, l.lost)
  }

  /** The cycles one after another, from what the server has, and with nothing in the memory. */
  function Run(sub: bool, differ: Differ, server: Server, cycles: seq<Cycle>): Ledger {
    Folded(Stepper(sub, differ), Ledger(server, [], 0, [], []), cycles)
  }

  function Stepper(sub: bool, differ: Differ): (Ledger, Cycle) -> Ledger {
    (l: Ledger, c: Cycle) => if l.server.Valid() then Cycled(sub, differ, l, c) else l
  }

  function Folded<S, C>(step: (S, C) -> S, start: S, cs: seq<C>): S
    decreases |cs|
  {
    if cs == [] then start else step(Folded(step, start, cs[..|cs| - 1]), cs[|cs| - 1])
  }

  /** The condition holds just before each of the cycles. */
  predicate Always<S, C>(step: (S, C) -> S, start: S, cs: seq<C>, ok: (S, C) -> bool) {
    forall i :: 0 <= i < |cs| ==> ok(Folded(step, start, cs[..i]), cs[i])
  }

  /** What is true of the beginning, and is kept by each step, is true of the whole run. */
  lemma {:induction false} FoldKeeps<S(!new), C(!new)>(
    step: (S, C) -> S, start: S, cs: seq<C>, ok: (S, C) -> bool, p: (S, seq<C>) -> bool
  )
    requires p(start, []) && Always(step, start, cs, ok)
    requires forall s, most, c :: p(s, most) && ok(s, c) ==> p(step(s, c), most + [c])
    ensures p(Folded(step, start, cs), cs)
    decreases |cs|
  {
    if cs != [] {
      var n := |cs| - 1;
      var most := cs[..n];
      assert forall i :: 0 <= i < n ==> most[..i] == cs[..i] && most[i] == cs[i];
      FoldKeeps(step, start, most, ok, p);
      assert ok(Folded(step, start, cs[..n]), cs[n]);
      assert cs == most + [cs[n]];
    }
  }

  /** The body given to the cycle is one that the server has had by then. */
  predicate Fits(l: Ledger, c: Cycle) { l.server.Knows(c.original) }

  /** Nothing is lost by splitting the operations of this cycle. */
  predicate CanSplit(sub: bool, differ: Differ, l: Ledger, c: Cycle) {
    l.server.Valid() ==> SplitsHere(sub, differ, PatchOf(l, c).fns, OutcomeOf(sub, differ, l, c))
  }

  /** The merge-patch of this cycle is not refused. */
  predicate CanMerge(sub: bool, l: Ledger, c: Cycle) {
    l.server.Valid() ==> !MergeIsRefused(sub, l.server, PatchOf(l, c), c.w)
  }

  /** In each cycle, what the operator is given fits, and the operations can be split. */
  predicate AllFit(sub: bool, differ: Differ, server: Server, cycles: seq<Cycle>) {
    Always(Stepper(sub, differ), Ledger(server, [], 0, [], []), cycles,
           (l: Ledger, c: Cycle) => Fits(l, c) && CanSplit(sub, differ, l, c))
  }

  predicate AllMerge(sub: bool, differ: Differ, server: Server, cycles: seq<Cycle>) {
    Always(Stepper(sub, differ), Ledger(server, [], 0, [], []), cycles, (l: Ledger, c: Cycle) => CanMerge(sub, l, c))
  }

  /** The settled functions are reflected in the version that the operations of that cycle were made of,
      which is not older than the body given to that cycle; or there is no object to reflect them. */
  predicate IsHonest(server: Server, s: Settlement, cycles: seq<Cycle>) {
    && s.cycle < |cycles|
    && (s.fns == [] || server.gone ||
        (s.made.Some? && server.Knows(s.made.value) && cycles[s.cycle].original.version <= s.made.value.version
         && ReflectedFrom(server.history, s.fns, s.made.value.version, s.start)))
  }

  /** The function waits for the next cycle, or was settled not earlier than in that cycle, or is lost. */
  ghost predicate Remembered(l: Ledger, f: Fn, cycle: nat) {
    || f in l.remaining
    || f in l.lost
    || exists j :: 0 <= j < |l.settled| && f in l.settled[j].fns && cycle <= l.settled[j].cycle
  }

  lemma ReflectionStays(history: seq<Body>, longer: seq<Body>, fns: seq<Fn>, v: nat, start: nat)
    requires history <= longer && ReflectedFrom(history, fns, v, start)
    ensures ReflectedFrom(longer, fns, v, start)
  {
    var u :| v <= u <= v + 2 && ReflectedAt(history, fns, v, u) && (u == v || start <= u);
    assert forall i :: 0 <= i < |history| ==> longer[i] == history[i];
    assert ReflectedAt(longer, fns, v, u);
  }

  lemma GoneStays(sub: bool, server: Server, patch: Patch, original: Seen, differ: Differ, w: Weathers)
    requires server.Valid() && server.gone
    ensures Patched(sub, server, patch, original, differ, w).server.gone
  {
  }

  lemma HonestyStays(before: Server, after: Server, s: Settlement, cycles: seq<Cycle>, c: Cycle)
    requires IsHonest(before, s, cycles) && before.history <= after.history && (before.gone ==> after.gone)
    ensures IsHonest(after, s, cycles + [c])
  {
    if s.fns != [] && !before.gone {
      ReflectionStays(before.history, after.history, s.fns, s.made.value.version, s.start);
    }
  }

  ghost predicate AllHonest(l: Ledger, cycles: seq<Cycle>) {
    forall j :: 0 <= j < |l.settled| ==> IsHonest(l.server, l.settled[j], cycles)
  }

  ghost predicate NoneForgotten(l: Ledger, cycles: seq<Cycle>) {
    forall i, f :: 0 <= i < |cycles| && f in cycles[i].queued ==> Remembered(l, f, i)
  }

  /** One cycle settles honestly, if its operations can be split. */
  lemma CycleIsHonest(sub: bool, differ: Differ, l: Ledger, cycles: seq<Cycle>, c: Cycle)
    requires l.server.Valid() && l.cycles == |cycles| && differ.Lawful() && l.server.Knows(c.original)
    requires AllHonest(l, cycles)
    requires SplitsHere(sub, differ, PatchOf(l, c).fns, OutcomeOf(sub, differ, l, c))
    ensures AllHonest(Cycled(sub, differ, l, c), cycles + [c])
  {
    PatchingExactly(sub, l.server, PatchOf(l, c), c.original, differ, c.w);
    if l.server.gone { GoneStays(sub, l.server, PatchOf(l, c), c.original, differ, c.w); }
    var l' := Cycled(sub, differ, l, c);
    forall j | 0 <= j < |l'.settled| ensures IsHonest(l'.server, l'.settled[j], cycles + [c]) {
      if j < |l.settled| { HonestyStays(l.server, l'.server, l.settled[j], cycles, c); }
    }
  }

  /** One cycle forgets nothing; it loses what it has queued exactly if its merge-patch is refused. */
  lemma CycleIsSound(sub: bool, differ: Differ, l: Ledger, cycles: seq<Cycle>, c: Cycle)
    requires l.server.Valid() && l.cycles == |cycles| && differ.Lawful() && l.server.Knows(c.original)
    requires NoneForgotten(l, cycles)
    ensures var l' := Cycled(sub, differ, l, c);
            && NoneForgotten(l', cycles + [c])
            && l'.lost == l.lost + if MergeIsRefused(sub, l.server, PatchOf(l, c), c.w) then c.queued else []
  {
    PatchingExactly(sub, l.server, PatchOf(l, c), c.original, differ, c.w);
    var l' := Cycled(sub, differ, l, c);
    assert |l'.settled| > |l.settled| ==> l'.settled[|l.settled|].fns == l.remaining + c.queued;
    forall i, f | 0 <= i < |cycles + [c]| && f in (cycles + [c])[i].queued ensures Remembered(l', f, i) {
      if i < |cycles| {
        assert f in cycles[i].queued && Remembered(l, f, i);
        if f !in l.remaining && f !in l.lost {
          var j :| 0 <= j < |l.settled| && f in l.settled[j].fns && i <= l.settled[j].cycle;
          assert l'.settled[j] == l.settled[j];
        }
      }
    }
  }

  /** What is known of the memory after some cycles; `calm` is for no refusals of the merge-patches. */
  ghost predicate Sound(l: Ledger, cycles: seq<Cycle>, calm: bool) {
    && l.server.Valid() && l.cycles == |cycles|
    && AllHonest(l, cycles) && NoneForgotten(l, cycles) && (calm ==> l.lost == [])
  }

  lemma CycleKeeps(sub: bool, differ: Differ, l: Ledger, cycles: seq<Cycle>, c: Cycle, calm: bool)
    requires differ.Lawful() && Sound(l, cycles, calm) && Fits(l, c) && CanSplit(sub, differ, l, c)
    requires calm ==> CanMerge(sub, l, c)
    ensures Sound(Cycled(sub, differ, l, c), cycles + [c], calm)
  {
    CycleIsHonest(sub, differ, l, cycles, c);
    CycleIsSound(sub, differ, l, cycles, c);
  }

  /** Over any number of cycles, with any writers around: whatever is settled, is settled honestly; each queued function
      waits for the next cycle, or was settled in its own cycle or later, or is lost; none is lost if no merge-patch is
      refused. */
  lemma NothingIsForgotten(sub: bool, differ: Differ, server: Server, cycles: seq<Cycle>)
    requires server.Valid() && differ.Lawful() && AllFit(sub, differ, server, cycles)
    ensures var l := Run(sub, differ, server, cycles);
            && l.server.Valid() && AllHonest(l, cycles) && NoneForgotten(l, cycles)
            && (AllMerge(sub, differ, server, cycles) ==> l.lost == [])
  {
    var step := Stepper(sub, differ);
    var start := Ledger(server, [], 0, [], []);
    var calm := AllMerge(sub, differ, server, cycles);
    var ok := (l: Ledger, c: Cycle) => Fits(l, c) && CanSplit(sub, differ, l, c) && (calm ==> CanMerge(sub, l, c));
    var p := (l: Ledger, most: seq<Cycle>) => Sound(l, most, calm);
    forall l, most, c | p(l, most) && ok(l, c) ensures p(step(l, c), most + [c]) {
      CycleKeeps(sub, differ, l, most, c, calm);
    }
    FoldKeeps(step, start, cycles, ok, p);
  }

  /** While no merge-patch is refused, a function queued in a cycle is pending; or it was settled together with others
      in that cycle or later, and they all are reflected in the version that their operations were made of, which is
      not older than the body given to that later cycle; or the object is gone. */
  lemma FateOfFunctions(sub: bool, differ: Differ, server: Server, cycles: seq<Cycle>, i: nat, f: Fn)
    requires server.Valid() && differ.Lawful() && AllFit(sub, differ, server, cycles)
    requires AllMerge(sub, differ, server, cycles)
    requires i < |cycles| && f in cycles[i].queued
    ensures var l := Run(sub, differ, server, cycles);
            || f in l.remaining
            || l.server.gone
            || exists j :: 0 <= j < |l.settled| && IsFulfilled(l.server, l.settled[j], cycles, f, i)
  {
    NothingIsForgotten(sub, differ, server, cycles);
  }

  ghost predicate IsFulfilled(server: Server, s: Settlement, cycles: seq<Cycle>, f: Fn, i: nat) {
    && f in s.fns && i <= s.cycle < |cycles|
    && s.made.Some? && server.Knows(s.made.value)
    && cycles[s.cycle].original.version <= s.made.value.version
    && ReflectedFrom(server.history, s.fns, s.made.value.version, s.start)
  }

  lemma OneCycle(sub: bool, differ: Differ, server: Server, c: Cycle)
    requires server.Valid()
    ensures Run(sub, differ, server, [c]) == Cycled(sub, differ, Ledger(server, [], 0, [], []), c)
  {
    var step, start := Stepper(sub, differ), Ledger(server, [], 0, [], []);
    assert [c][..0] == [];
    assert Folded(step, start, [c]) == step(Folded(step, start, []), c);
  }

  /** The refused merge-patch of one cycle loses what was queued in that cycle: nothing is written, nothing remains,
      and the only version of the object does not reflect the function. */
  lemma RefusedMergeLoses(sub: bool, differ: Differ, b: Body, f: Fn, x: Value)
    requires f.run(b) != b
    ensures var calm, bad := Weather([], false, false), Weather([], false, true);
            var c := Cycle(map["spec" := x], [f], Seen(b, 0), Weathers(bad, calm, calm, calm));
            var l := Run(sub, differ, Server([b], false), [c]);
            l.remaining == [] && l.settled == [] && l.lost == [f] && l.server == Server([b], false)
            && forall v, u :: !ReflectedAt(l.server.history, [f], v, u)
  {
    var calm, bad := Weather([], false, false), Weather([], false, true);
    var c := Cycle(map["spec" := x], [f], Seen(b, 0), Weathers(bad, calm, calm, calm));
    var server := Server([b], false);
    var l := Run(sub, differ, server, [c]);
    OneCycle(sub, differ, server, c);
    assert "spec"[1] != "status"[1];
    assert "spec" in c.dict - {"status"};
    assert [b] + [] == [b] && [] + [f] == [f];
    forall v, u ensures !ReflectedAt(l.server.history, [f], v, u) {
      assert [f][1..] == [];
      assert Applied([f], b) == Applied([], f.run(b)) == f.run(b);
    }
  }

  /** If the library moves a value from the spec to the status subresource, only the half of it is done,
      and nothing remains for the next cycle. */
  lemma MovesAreHalfDone(differ: Differ, f: Fn, x: Value, move: Op)
    requires var b, c := Body(map["spec" := x], None), Body(map[], Some(x));
             && f.run(b) == c && differ.Lawful() && differ.diff(b, c) == [move]
             && move.MoveToStatus? && move.takeMain(b.main) == (map[], x) && move.putStatus(None, x) == Some(x)
    ensures var b := Body(map["spec" := x], None);
            var calm := Weather([], false, false);
            var w := Weathers(calm, calm, calm, calm);
            var o := Patched(true, Server([b], false), Patch(map[], [f]), Seen(b, 0), differ, w);
            && o.result.Done? && o.result.remaining == [] && o.server.Current() == Body(map["spec" := x], Some(x))
            && !Accounted(Server([b], false), [f], Seen(b, 0), o)
  {
    var b, c := Body(map["spec" := x], None), Body(map[], Some(x));
    var calm := Weather([], false, false);
    var server, ops := Server([b], false), [move];
    assert [f][1..] == [];
    assert Applied([f], b) == Applied([], f.run(b)) == c;
    assert OpsFor(differ, [f], b) == ops;
    OneOp(move, b);
    assert "spec" in map["spec" := x];
    MoveSplitsExactly(differ, [f], b);
    SplittingExactly(true, server, [f], differ, Weathers(calm, calm, calm, calm));
    CalmPhases(true, server, [f], Seen(b, 0), None, ops, Weathers(calm, calm, calm, calm));
    assert Patch(map[], [f]).dict - {"status"} == map[];
  }
}

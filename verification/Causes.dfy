/** Classification of the events, as in kopf/_core/intents/causes.py and kopf/_cogs/structs/finalizers.py. */
module Causes {
  import opened Wrappers
  import opened Trees
  import opened Diffs

  datatype EventType = LISTED | ADDED | MODIFIED | DELETED

  datatype Reason = CREATE | UPDATE | DELETE | RESUME | NOOP | FREE | GONE {
    /** The reasons for which the handlers are called at all. */
    predicate ForHandlers() { this in {CREATE, UPDATE, DELETE, RESUME} }
  }

  predicate DeletionIsOngoing(body: Value) {
    ResolveOr(body, ["metadata", "deletionTimestamp"], Null) != Null
  }

  function Finalizers(body: Value): seq<Value> {
    match Resolve(body, ["metadata", "finalizers"])
    case Some(List(items)) => items
    case _ => []
  }

  predicate DeletionIsBlocked(body: Value, finalizer: string) {
    Scalar(Text(finalizer)) in Finalizers(body)
  }

  /** `detect_changing_cause`; the essences are absent if there is nothing stored on the object. */
  function DetectReason(
    kind: EventType, body: Value, finalizer: string, was: Option<Value>, diff: set<Item>, initial: bool
  ): Reason {
    if kind == DELETED then GONE
    else if DeletionIsOngoing(body) && !DeletionIsBlocked(body, finalizer) then FREE
    else if DeletionIsOngoing(body) then DELETE
    else if was.None? then CREATE
    else if diff == {} && initial then RESUME
    else if diff == {} then NOOP
    else UPDATE
  }

  /** What the reasons mean for the two essences, the last-handled one and the present one, up to the absent values.
      The unchanged objects are resumed when they are seen for the first time by this operator; the others are resumed
      together with what has happened to them. */
  lemma ReasonsAreExact(
    kind: EventType, body: Value, finalizer: string, was: Option<Value>, now: Value, initial: bool
  )
    ensures var diff := if was.Some? then Diff(was.value, now) else {};
            var reason := DetectReason(kind, body, finalizer, was, diff, initial);
            var living := kind != DELETED && !DeletionIsOngoing(body);
            && (reason == GONE <==> kind == DELETED)
            && (reason == FREE <==> kind != DELETED && DeletionIsOngoing(body) && !DeletionIsBlocked(body, finalizer))
            && (reason == DELETE <==> kind != DELETED && DeletionIsOngoing(body) && DeletionIsBlocked(body, finalizer))
            && (reason == CREATE <==> living && was.None?)
            && (reason == UPDATE <==> living && was.Some? && NullsDropped(was.value) != NullsDropped(now))
            && (reason == RESUME <==> living && was.Some? && NullsDropped(was.value) == NullsDropped(now) && initial)
            && (reason == NOOP <==> living && was.Some? && NullsDropped(was.value) == NullsDropped(now) && !initial)
  {
    if was.Some? { EmptyDiffExactly(was.value, now); }
  }
}

/**
 * The session-based change tracker of src/changesetTracker.js. A tracker holds
 * a change set and at most one open session; recording a change replaces the
 * change set by a plain record of the change, its session metadata and its
 * kind, and the changes of the open session are those whose metadata carries
 * the session's id.
 *
 * The change-set library is outside the model: a library change set is the
 * record of its own enumerable fields, `ChangeSet.create` is a parameter of
 * RecordChange, and the library's `getChanges` is a parameter of
 * GetCurrentSessionChanges. `Math.random` and `Date.now` are parameters too.
 */
module ChangesetTracker {
  import opened JsValues

  /** What the tracker's `changeset` field holds. */
  datatype TrackerChangeSet =
    | Library(fields: Record)   // an instance of the library's ChangeSet
    | Plain(fields: Record)     // the object literal recordChange builds

  /** A library's `getChanges`, on the record of a change set's fields. */
  type GetChanges = Record -> Result<seq<JsValue>, string>

  const TypeError := "TypeError"

  /** `determineChangeType`: compare the text lengths of the two documents. */
  function DetermineChangeType(oldText: string, newText: string): (t: string)
    ensures t == "insertion" <==> |newText| > |oldText|
    ensures t == "deletion" <==> |newText| < |oldText|
    ensures t == "modification" <==> |newText| == |oldText|
  {
    if |newText| > |oldText| then "insertion"
    else if |newText| < |oldText| then "deletion"
    else "modification"
  }

  /** The session record startSession builds: a fresh id and start time, then the caller's metadata over them. */
  function SessionRecord(metadata: Record, randomId: string, now: int): (s: Record)
    ensures s.Keys == {"id", "startTime"} + metadata.Keys
    ensures Get(s, "id") == if "id" in metadata then metadata["id"] else JString(randomId)
    ensures Get(s, "startTime") == if "startTime" in metadata then metadata["startTime"] else JNumber(now)
    ensures forall k :: k in metadata ==> s[k] == metadata[k]
  {
    Spread(map["id" := JString(randomId), "startTime" := JNumber(now)], metadata)
  }

  /** The metadata recordChange attaches: the open session's fields, with the time of recording. */
  function ChangeMetadata(session: Record, now: int): (m: Record)
    ensures m.Keys == session.Keys + {"timestamp"}
    ensures m["timestamp"] == JNumber(now)
    ensures forall k :: k in session && k != "timestamp" ==> m[k] == session[k]
  {
    Spread(session, map["timestamp" := JNumber(now)])
  }

  /** The object literal recordChange stores: the change's own fields, then its metadata and kind. */
  function NewChange(change: Record, session: Record, now: int, oldText: string, newText: string): (c: Record)
    ensures c.Keys == change.Keys + {"metadata", "type"}
    ensures c["metadata"] == JObject(ChangeMetadata(session, now))
    ensures c["type"] == JString(DetermineChangeType(oldText, newText))
    ensures forall k :: k in change && k != "metadata" && k != "type" ==> c[k] == change[k]
  {
    Spread(change, map["metadata" := JObject(ChangeMetadata(session, now)),
                       "type" := JString(DetermineChangeType(oldText, newText))])
  }

  /** JavaScript property access `v[k]`: it throws on undefined and null, and primitives have none of the fields read here. */
  function Property(v: JsValue, k: string): Result<JsValue, string> {
    match v
    case JUndefined => Err(TypeError)
    case JNull => Err(TypeError)
    case JObject(fields) => Ok(Get(fields, k))
    case _ => Ok(JUndefined)
  }

  /** `change.metadata.sessionId` */
  function SessionIdOf(change: JsValue): Result<JsValue, string> {
    match Property(change, "metadata")
    case Err(e) => Err(e)
    case Ok(metadata) => Property(metadata, "sessionId")
  }

  /** The filter's verdict on one change: kept, dropped, or a TypeError while reading it. */
  function KeepIfInSession(change: JsValue, id: JsValue): Result<seq<JsValue>, string> {
    match SessionIdOf(change)
    case Err(e) => Err(e)
    case Ok(sessionId) => Ok(if sessionId == id then [change] else [])
  }

  /** Join two partial results: the first failure wins, otherwise the lists are concatenated. */
  function Join(r1: Result<seq<JsValue>, string>, r2: Result<seq<JsValue>, string>): Result<seq<JsValue>, string> {
    if r1.Err? then r1 else if r2.Err? then r2 else Ok(r1.value + r2.value)
  }

  /** The filter of getCurrentSessionChanges: keep the changes whose `metadata.sessionId` is `id`. */
  function FilterSession(changes: seq<JsValue>, id: JsValue): (r: Result<seq<JsValue>, string>)
    ensures r.Ok? ==> |r.value| <= |changes|
  {
    if changes == [] then Ok([])
    else Join(KeepIfInSession(changes[0], id), FilterSession(changes[1..], id))
  }

  /** The filter fails exactly when some change has no readable `metadata.sessionId`. */
  lemma {:induction false} FilterSessionFails(changes: seq<JsValue>, id: JsValue)
    ensures FilterSession(changes, id).Err? <==> exists k :: 0 <= k < |changes| && SessionIdOf(changes[k]).Err?
  {
    if changes != [] {
      FilterSessionFails(changes[1..], id);
      if SessionIdOf(changes[0]).Ok? && FilterSession(changes, id).Ok? {
        forall k | 0 <= k < |changes| ensures SessionIdOf(changes[k]).Ok? {
          if k > 0 {
            assert changes[k] == changes[1..][k - 1];
          }
        }
      }
      if FilterSession(changes[1..], id).Err? {
        var k :| 0 <= k < |changes[1..]| && SessionIdOf(changes[1..][k]).Err?;
        assert changes[k + 1] == changes[1..][k];
      }
    }
  }

  /** What the filter keeps: exactly those changes whose session id is `id`. */
  lemma {:induction false} FilterSessionKeeps(changes: seq<JsValue>, id: JsValue)
    requires FilterSession(changes, id).Ok?
    ensures forall c :: c in FilterSession(changes, id).value <==> c in changes && SessionIdOf(c) == Ok(id)
  {
    if changes != [] {
      assert SessionIdOf(changes[0]).Ok?;
      assert FilterSession(changes[1..], id).Ok?;
      FilterSessionKeeps(changes[1..], id);
      assert changes == [changes[0]] + changes[1..];
    }
  }

  lemma JoinAssociative(r1: Result<seq<JsValue>, string>, r2: Result<seq<JsValue>, string>,
                        r3: Result<seq<JsValue>, string>)
    ensures Join(r1, Join(r2, r3)) == Join(Join(r1, r2), r3)
  {
    if r1.Ok? && r2.Ok? && r3.Ok? {
      assert r1.value + (r2.value + r3.value) == r1.value + r2.value + r3.value;
    }
  }

  /**
   * The filter works change by change in order: filtering a concatenation is
   * filtering each part and joining the results, the first failure winning.
   */
  lemma {:induction false} FilterSessionAppend(a: seq<JsValue>, b: seq<JsValue>, id: JsValue)
    ensures FilterSession(a + b, id) == Join(FilterSession(a, id), FilterSession(b, id))
  {
    if a == [] {
      assert a + b == b;
      var fb := FilterSession(b, id);
      if fb.Ok? {
        assert [] + fb.value == fb.value;
      }
    } else {
      assert (a + b)[0] == a[0];
      assert (a + b)[1..] == a[1..] + b;
      FilterSessionAppend(a[1..], b, id);
      JoinAssociative(KeepIfInSession(a[0], id), FilterSession(a[1..], id), FilterSession(b, id));
    }
  }

  /** getCurrentSessionChanges on a given state of the tracker. */
  function SessionChanges(changeset: TrackerChangeSet, session: Option<Record>, getChanges: GetChanges)
    : (r: Result<seq<JsValue>, string>)
    // with no open session there is nothing to report
    ensures session.None? ==> r == Ok([])
    // the stored object literal has no getChanges method
    ensures session.Some? && changeset.Plain? ==> r == Err(TypeError)
    ensures session.Some? && changeset.Library? ==>
              r == match getChanges(changeset.fields)
                   case Err(e) => Err(e)
                   case Ok(changes) => FilterSession(changes, Get(session.value, "id"))
  {
    if session.None? then Ok([])
    else match changeset
      case Plain(_) => Err(TypeError)
      case Library(fields) =>
        match getChanges(fields)
        case Err(e) => Err(e)
        case Ok(changes) => FilterSession(changes, Get(session.value, "id"))
  }

  class Tracker {
    var changeset: TrackerChangeSet
    var currentSession: Option<Record>

    /** A tracker starts with the library's empty change set and no session. */
    constructor(empty: Record)
      ensures changeset == Library(empty)
      ensures currentSession == None
    {
      changeset := Library(empty);
      currentSession := None;
    }

    /** startSession: open a session (replacing any open one) and return its id. */
    method StartSession(metadata: Record, randomId: string, now: int) returns (id: JsValue)
      modifies this
      ensures currentSession == Some(SessionRecord(metadata, randomId, now))
      ensures id == Get(currentSession.value, "id")
      ensures changeset == old(changeset)
    {
      currentSession := Some(SessionRecord(metadata, randomId, now));
      id := Get(currentSession.value, "id");
    }

    /** endSession: close the open session, if any. */
    method EndSession()
      modifies this
      ensures currentSession == None
      ensures changeset == old(changeset)
    {
      if currentSession.Some? {
        currentSession := None;
      }
    }

    /**
     * recordChange: without an open session nothing happens; otherwise the
     * change the library created replaces the change set as a plain record.
     */
    method RecordChange(created: Record, now: int, oldText: string, newText: string)
      returns (r: Option<Record>)
      modifies this
      ensures old(currentSession).None? ==> r == None && changeset == old(changeset)
      ensures old(currentSession).Some? ==>
                r == Some(NewChange(created, old(currentSession).value, now, oldText, newText))
      ensures old(currentSession).Some? ==> changeset == Plain(r.value)
      ensures currentSession == old(currentSession)
    {
      if currentSession.None? {
        return None;
      }
      var metadata := ChangeMetadata(currentSession.value, now);
      var newChange := Spread(created, map["metadata" := JObject(metadata),
                                           "type" := JString(DetermineChangeType(oldText, newText))]);
      changeset := Plain(newChange);
      return Some(newChange);
    }

    /** getCurrentSessionChanges */
    method GetCurrentSessionChanges(getChanges: GetChanges) returns (r: Result<seq<JsValue>, string>)
      ensures r == SessionChanges(changeset, currentSession, getChanges)
    {
      if currentSession.None? {
        return Ok([]);
      }
      match changeset {
        case Plain(_) =>
          return Err(TypeError);
        case Library(fields) =>
          var changes := getChanges(fields);
          if changes.Err? {
            return Err(changes.error);
          }
          r := FilterSession(changes.value, Get(currentSession.value, "id"));
      }
    }

    /** acceptChange: the source leaves it unimplemented, so it changes nothing. */
    method AcceptChange(changeId: JsValue)
      ensures changeset == old(changeset) && currentSession == old(currentSession)
    {
    }

    /** rejectChange: the source leaves it unimplemented, so it changes nothing. */
    method RejectChange(changeId: JsValue)
      ensures changeset == old(changeset) && currentSession == old(currentSession)
    {
    }
  }

  /** Once a change is recorded in a session, asking for that session's changes fails. */
  lemma RecordedChangeBreaksSessionChanges(change: Record, session: Record, now: int, oldText: string,
                                           newText: string, getChanges: GetChanges)
    ensures SessionChanges(Plain(NewChange(change, session, now, oldText, newText)), Some(session), getChanges)
            == Err(TypeError)
  {
  }
}

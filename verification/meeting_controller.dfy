/**
 * The write side of the meeting controller: `add`, `deleteData` and `deleteMany`
 * as methods of a store that holds the meeting collection in memory.
 */
module MeetingController {
  import opened Wrappers
  import opened Sequences
  import opened ObjectIds
  import opened MeetingSchema
  import opened MeetingQueries

  /** The response of `add`: 200 with the saved meeting, 400 when saving throws. */
  datatype AddOutcome = Saved(meeting: Meeting) | Invalid(error: ValidationError) | DuplicateKey {
    function Status(): int {
      if Saved? then 200 else 400
    }
  }

  /** The response of `deleteData`: 200 with the updated meeting, 404, or 500 when the lookup throws. */
  datatype DeleteOutcome = Deleted(meeting: Meeting) | DeleteNotFound | DeleteFailed {
    function Status(): int {
      match this
      case Deleted(_) => 200
      case DeleteNotFound => 404
      case DeleteFailed => 500
    }
  }

  /** The JSON body of a `deleteMany` request: an array of identifiers, or anything else. */
  datatype RequestBody = JsonArray(items: seq<string>) | OtherJson

  /** The response of `deleteMany`, carrying the store's `modifiedCount` on success. */
  datatype DeleteManyOutcome = MarkedDeleted(modifiedCount: nat) | BadRequest | NoneMatched | DeleteManyFailed {
    function Status(): int {
      match this
      case MarkedDeleted(_) => 200
      case BadRequest => 400
      case NoneMatched => 404
      case DeleteManyFailed => 500
    }
  }

  /** `{$set: {deleted: true}}` applied to every stored meeting whose identifier is in `ids`. */
  function MarkDeleted(meetings: map<Id, Meeting>, ids: set<Id>): (r: map<Id, Meeting>)
    ensures r.Keys == meetings.Keys
    ensures forall id | id in r :: r[id].deleted == (meetings[id].deleted || id in ids)
    ensures forall id | id in r :: r[id].(deleted := false) == meetings[id].(deleted := false)
  {
    map id | id in meetings :: if id in ids then meetings[id].(deleted := true) else meetings[id]
  }

  /** The stored meetings a batch names (the store's `matchedCount` counts these). */
  function MatchedIds(meetings: map<Id, Meeting>, ids: set<Id>): set<Id> {
    set id | id in ids && id in meetings
  }

  /** The named meetings the batch actually changes (the store's `modifiedCount` counts these). */
  function ModifiedIds(meetings: map<Id, Meeting>, ids: set<Id>): set<Id> {
    set id | id in ids && id in meetings && !meetings[id].deleted
  }

  /** The distinct identifiers of a request body whose every element converts. */
  function IdSet(raw: seq<string>): (ids: set<Id>)
    requires AllValid(raw)
    ensures forall i | 0 <= i < |raw| :: ParseId(raw[i]).value in ids
    ensures forall id | id in ids :: exists i | 0 <= i < |raw| :: ParseId(raw[i]) == Some(id)
  {
    set i | 0 <= i < |raw| :: ParseId(raw[i]).value
  }

  /** modifiedCount <= matchedCount <= distinct identifiers given <= identifiers given. */
  lemma DeleteManyCounts(meetings: map<Id, Meeting>, raw: seq<string>)
    requires AllValid(raw)
    ensures |ModifiedIds(meetings, IdSet(raw))| <= |MatchedIds(meetings, IdSet(raw))| <= |IdSet(raw)| <= |raw|
  {
    var ids := IdSet(raw);
    SubsetCardinality(ModifiedIds(meetings, ids), MatchedIds(meetings, ids));
    SubsetCardinality(MatchedIds(meetings, ids), ids);
    var parsed := ParseAll(raw);
    assert ids == set id | id in parsed by {
      forall id | id in ids ensures id in parsed {
        var i :| 0 <= i < |raw| && ParseId(raw[i]) == Some(id);
        assert parsed[i] == id;
      }
    }
    ElementsCardinality(parsed);
  }

  /** Marking deleted a batch that names no stored meeting changes nothing. */
  lemma MarkDeletedWithoutMatchIsIdentity(meetings: map<Id, Meeting>, ids: set<Id>)
    requires MatchedIds(meetings, ids) == {}
    ensures MarkDeleted(meetings, ids) == meetings
  {
    forall id | id in meetings ensures MarkDeleted(meetings, ids)[id] == meetings[id] {
      assert id in ids ==> id in MatchedIds(meetings, ids);
    }
  }

  /** A repeated soft-delete changes nothing more, and a repeated batch modifies no record. */
  lemma MarkDeletedIdempotent(meetings: map<Id, Meeting>, ids: set<Id>)
    ensures MarkDeleted(MarkDeleted(meetings, ids), ids) == MarkDeleted(meetings, ids)
    ensures ModifiedIds(MarkDeleted(meetings, ids), ids) == {}
  {
    var once := MarkDeleted(meetings, ids);
    forall id | id in once ensures MarkDeleted(once, ids)[id] == once[id] {
      if id in ids {
        assert once[id] == meetings[id].(deleted := true);
      }
    }
  }

  /** A soft-deleted meeting drops out of every listing. */
  lemma DeletedMeetingsAreNotListed(meetings: map<Id, Meeting>, order: seq<Id>, users: map<Id, User>,
                                    query: map<string, string>, ids: set<Id>)
    requires Consistent(meetings, order)
    ensures Consistent(MarkDeleted(meetings, ids), order)
    ensures Index(MarkDeleted(meetings, ids), order, users, query).ListOk? ==>
              forall id | id in ids :: id !in ItemIds(Index(MarkDeleted(meetings, ids), order, users, query).items)
  {
    var after := MarkDeleted(meetings, ids);
    assert Consistent(after, order);
    var r := Index(after, order, users, query);
    if r.ListOk? {
      forall i | 0 <= i < |r.items| ensures ItemIds(r.items)[i] !in ids {
        assert r.items[i] in r.items;
      }
    }
  }

  /** The meeting collection held in memory, with its natural order. */
  class MeetingStore {
    var meetings: map<Id, Meeting>
    var order: seq<Id>

    /** Every identifier once in the order, and every stored meeting as the schema lets through. */
    ghost predicate Valid()
      reads this
    {
      && Consistent(meetings, order)
      && forall id | id in meetings :: WellFormed(meetings[id])
    }

    constructor ()
      ensures Valid()
      ensures meetings == map[] && order == []
    {
      meetings := map[];
      order := [];
    }

    /**
     * `add`: build the document from the body and save it. `generatedId` and `now`
     * are the identifier the driver generates and the clock reading; `position` is
     * where the new document falls in the natural order, which the database does
     * not specify.
     */
    method Add(body: Payload, generatedId: Id, now: Time, position: nat) returns (outcome: AddOutcome)
      requires Valid() && IsCanonical(generatedId) && position <= |order|
      modifies this
      ensures Valid()
      ensures Create(body, generatedId, now).Failure? ==>
                && outcome == Invalid(Create(body, generatedId, now).error)
                && meetings == old(meetings) && order == old(order)
      ensures Create(body, generatedId, now).Success? && Create(body, generatedId, now).value.id in old(meetings) ==>
                outcome == DuplicateKey && meetings == old(meetings) && order == old(order)
      ensures Create(body, generatedId, now).Success? && Create(body, generatedId, now).value.id !in old(meetings) ==>
                && outcome == Saved(Create(body, generatedId, now).value)
                && meetings == old(meetings)[outcome.meeting.id := outcome.meeting]
                && order == old(order)[..position] + [outcome.meeting.id] + old(order)[position..]
    {
      var built := Create(body, generatedId, now);
      if built.Failure? {
        return Invalid(built.error);
      }
      var m := built.value;
      if m.id in meetings {
        // the unique index on `_id` rejects the insert
        return DuplicateKey;
      }
      InsertDistinct(order, m.id, position);
      meetings := meetings[m.id := m];
      order := order[..position] + [m.id] + order[position..];
      outcome := Saved(m);
    }

    /**
     * `deleteData`: `findByIdAndUpdate(id)` is given no update, so it only looks the
     * meeting up; the flag is then set on the document and saved.
     */
    method DeleteData(rawId: string) returns (outcome: DeleteOutcome)
      requires Valid()
      modifies this
      ensures Valid() && order == old(order)
      ensures !ValidId(rawId) ==> outcome == DeleteFailed && meetings == old(meetings)
      ensures ValidId(rawId) && ParseId(rawId).value !in old(meetings) ==>
                outcome == DeleteNotFound && meetings == old(meetings)
      ensures ValidId(rawId) && ParseId(rawId).value in old(meetings) ==>
                && meetings == MarkDeleted(old(meetings), {ParseId(rawId).value})
                && outcome == Deleted(meetings[ParseId(rawId).value])
    {
      var parsed := ParseId(rawId);
      if parsed.None? {
        return DeleteFailed;
      }
      var id := parsed.value;
      if id !in meetings {
        return DeleteNotFound;
      }
      var meeting := meetings[id];
      meeting := meeting.(deleted := true);
      meetings := meetings[id := meeting];
      assert meetings == MarkDeleted(old(meetings), {id});
      outcome := Deleted(meeting);
    }

    /**
     * `deleteMany`: check the body, convert every identifier, run the batch update,
     * then report 404 when it matched nothing.
     */
    method DeleteMany(body: RequestBody) returns (outcome: DeleteManyOutcome)
      requires Valid()
      modifies this
      ensures Valid() && order == old(order)
      ensures body.OtherJson? || body.items == [] ==> outcome == BadRequest && meetings == old(meetings)
      ensures body.JsonArray? && body.items != [] && !AllValid(body.items) ==>
                outcome == DeleteManyFailed && meetings == old(meetings)
      ensures body.JsonArray? && body.items != [] && AllValid(body.items) ==>
                && meetings == MarkDeleted(old(meetings), IdSet(body.items))
                && (MatchedIds(old(meetings), IdSet(body.items)) == {} ==> outcome == NoneMatched && meetings == old(meetings))
                && (MatchedIds(old(meetings), IdSet(body.items)) != {} ==>
                      outcome == MarkedDeleted(|ModifiedIds(old(meetings), IdSet(body.items))|))
    {
      if body.OtherJson? || body.items == [] {
        return BadRequest;
      }
      if !AllValid(body.items) {
        // one identifier that does not convert makes the ObjectId constructor throw
        return DeleteManyFailed;
      }
      var ids := IdSet(body.items);
      var matchedCount := |MatchedIds(meetings, ids)|;
      var modifiedCount := |ModifiedIds(meetings, ids)|;
      if matchedCount == 0 {
        MarkDeletedWithoutMatchIsIdentity(meetings, ids);
      }
      meetings := MarkDeleted(meetings, ids);
      if matchedCount == 0 {
        return NoneMatched;
      }
      outcome := MarkedDeleted(modifiedCount);
    }
  }
}

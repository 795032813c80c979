/**
 * The stored meeting document: its fields, the one enforced required field, the
 * casts of the ObjectId-typed fields and the two defaults the schema declares.
 */
module MeetingSchema {
  import opened Wrappers
  import opened ObjectIds

  /** Milliseconds since the Unix epoch, the value `Date.now` returns. */
  type Time = int

  /** A meeting as stored in the `Meetings` collection. */
  datatype Meeting = Meeting(
    id: Id,
    agenda: string,
    attendees: seq<Id>,       // references to contacts
    attendeesLead: seq<Id>,   // references to leads
    location: Option<string>,
    related: Option<string>,  // free text: the schema checks no set of values
    dateTime: Option<string>,
    notes: Option<string>,
    createBy: Option<Id>,     // reference to a user; not enforced (see Create)
    timestamp: Time,
    deleted: bool)

  /**
   * A request body handed to the model constructor. Identifiers are still text;
   * a field the body leaves out is None (an id array left out is empty).
   */
  datatype Payload = Payload(
    id: Option<string>,
    agenda: Option<string>,
    attendees: seq<string>,
    attendeesLead: seq<string>,
    location: Option<string>,
    related: Option<string>,
    dateTime: Option<string>,
    notes: Option<string>,
    createBy: Option<string>,
    timestamp: Option<Time>,
    deleted: Option<bool>)

  /** Saving a document that breaks the schema fails with the paths at fault. */
  datatype ValidationError = ValidationError(paths: set<string>)

  /** Every document the schema lets through satisfies this. */
  predicate WellFormed(m: Meeting) {
    && IsCanonical(m.id)
    && |m.agenda| > 0
    && AllCanonical(m.attendees)
    && AllCanonical(m.attendeesLead)
    && (m.createBy.Some? ==> IsCanonical(m.createBy.value))
  }

  /**
   * The required-field check Mongoose applies to a String path: the value must be
   * present and, being a string, non-empty.
   */
  predicate AgendaPresent(agenda: Option<string>) {
    agenda.Some? && agenda.value != ""
  }

  /** `createBy` declares `require` rather than `required`, so only its cast is checked. */
  predicate CreatorCasts(createBy: Option<string>) {
    createBy.Some? ==> ValidId(createBy.value)
  }

  /** The paths whose validation fails: the missing agenda and every failed ObjectId cast. */
  function FailingPaths(p: Payload): set<string> {
    (if p.id.Some? && !ValidId(p.id.value) then {"_id"} else {})
    + (if AgendaPresent(p.agenda) then {} else {"agenda"})
    + (if AllValid(p.attendees) then {} else {"attendees"})
    + (if AllValid(p.attendeesLead) then {} else {"attendeesLead"})
    + (if CreatorCasts(p.createBy) then {} else {"createBy"})
  }

  /**
   * `new Meeting({...body}).save()` up to the write itself: validation, then the
   * defaults. `generatedId` is the identifier the driver generates when the body has none.
   */
  function Create(p: Payload, generatedId: Id, now: Time): (r: Result<Meeting, ValidationError>)
    requires IsCanonical(generatedId)
    ensures r.Failure? <==> FailingPaths(p) != {}
    ensures r.Failure? ==> r.error.paths == FailingPaths(p)
    ensures r.Success? ==> WellFormed(r.value)
    ensures r.Success? ==> r.value.id == (if p.id.Some? then ParseId(p.id.value).value else generatedId)
    ensures r.Success? ==> Some(r.value.agenda) == p.agenda
    ensures r.Success? ==> r.value.attendees == ParseAll(p.attendees) && r.value.attendeesLead == ParseAll(p.attendeesLead)
    ensures r.Success? ==> r.value.location == p.location && r.value.related == p.related
    ensures r.Success? ==> r.value.dateTime == p.dateTime && r.value.notes == p.notes
    ensures r.Success? ==> r.value.createBy == (if p.createBy.Some? then ParseId(p.createBy.value) else None)
    ensures r.Success? ==> r.value.timestamp == p.timestamp.GetOr(now)
    ensures r.Success? ==> r.value.deleted == p.deleted.GetOr(false)
  {
    var failing := FailingPaths(p);
    if failing != {} then Failure(ValidationError(failing))
    else
      assert "agenda" !in failing && "createBy" !in failing && "_id" !in failing;
      assert "attendees" !in failing && "attendeesLead" !in failing;
      Success(Meeting(
        id := if p.id.Some? then ParseId(p.id.value).value else generatedId,
        agenda := p.agenda.value,
        attendees := ParseAll(p.attendees),
        attendeesLead := ParseAll(p.attendeesLead),
        location := p.location,
        related := p.related,
        dateTime := p.dateTime,
        notes := p.notes,
        createBy := if p.createBy.Some? then ParseId(p.createBy.value) else None,
        timestamp := p.timestamp.GetOr(now),
        deleted := p.deleted.GetOr(false)))
  }

  /** With every identifier well formed, the agenda alone decides whether a meeting saves. */
  lemma AgendaIsTheOnlyRequiredField(p: Payload, generatedId: Id, now: Time)
    requires IsCanonical(generatedId)
    requires p.id.Some? ==> ValidId(p.id.value)
    requires AllValid(p.attendees) && AllValid(p.attendeesLead) && CreatorCasts(p.createBy)
    ensures Create(p, generatedId, now).Success? <==> AgendaPresent(p.agenda)
    ensures !AgendaPresent(p.agenda) ==> Create(p, generatedId, now).error.paths == {"agenda"}
  {
  }

  /** A meeting with no creator is accepted and stored without one. */
  lemma CreatorIsNotRequired(p: Payload, generatedId: Id, now: Time)
    requires IsCanonical(generatedId)
    requires p.createBy.None?
    requires FailingPaths(p.(createBy := Some("000000000000000000000000"))) == {}
    ensures Create(p, generatedId, now).Success?
    ensures Create(p, generatedId, now).value.createBy.None?
  {
    assert FailingPaths(p) == FailingPaths(p.(createBy := Some("000000000000000000000000")));
  }

  /** Any text at all is accepted as `related`: the schema has no list of allowed values. */
  lemma RelatedIsUnconstrained(p: Payload, generatedId: Id, now: Time, tag: string)
    requires IsCanonical(generatedId)
    ensures Create(p.(related := Some(tag)), generatedId, now).Success? == Create(p, generatedId, now).Success?
    ensures Create(p.(related := Some(tag)), generatedId, now).Success? ==>
              Create(p.(related := Some(tag)), generatedId, now).value.related == Some(tag)
  {
    assert FailingPaths(p.(related := Some(tag))) == FailingPaths(p);
  }

  /** A new meeting is not deleted and carries the creation time unless the body says otherwise. */
  lemma DefaultsOnCreate(p: Payload, generatedId: Id, now: Time)
    requires IsCanonical(generatedId)
    requires Create(p, generatedId, now).Success?
    requires p.deleted.None? && p.timestamp.None?
    ensures !Create(p, generatedId, now).value.deleted
    ensures Create(p, generatedId, now).value.timestamp == now
  {
  }
}

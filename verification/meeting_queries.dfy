/**
 * The read side of the meeting controller: `index` (filtered listing with the
 * creator's name) and `view` (one meeting joined to its contacts, leads and
 * creator). Both are pure functions of the store's contents.
 */
module MeetingQueries {
  import opened Wrappers
  import opened Sequences
  import opened ObjectIds
  import opened MeetingSchema

  /** A contact document, as far as the join reads it. */
  datatype Contact = Contact(id: Id, fullName: Option<string>)

  /** A lead document, as far as the join reads it. */
  datatype Lead = Lead(id: Id, leadName: Option<string>)

  /** A user document, as far as the creator lookups read it. */
  datatype User = User(firstName: Option<string>, lastName: Option<string>)

  /**
   * The meeting collection: documents by identifier, and `order`, the collection's
   * natural order, in which every stored identifier occurs exactly once.
   */
  predicate Consistent(meetings: map<Id, Meeting>, order: seq<Id>) {
    && Distinct(order)
    && (forall id | id in order :: id in meetings)
    && (forall id | id in meetings :: id in order && meetings[id].id == id)
  }

  // ---------------------------------------------------------------- index

  /** A value in a store query: query-string text, or the boolean the controller adds. */
  datatype FilterValue = Text(text: string) | Flag(flag: bool)

  /**
   * `{...req.query, deleted: false}`: the caller's keys first, then `deleted`,
   * written last and so replacing any `deleted` the caller gave.
   */
  function StoreQuery(query: map<string, string>): (f: map<string, FilterValue>)
    ensures f.Keys == query.Keys + {"deleted"}
    ensures f["deleted"] == Flag(false)
    ensures forall k | k in query && k != "deleted" :: f[k] == Text(query[k])
  {
    (map k | k in query :: Text(query[k]))["deleted" := Flag(false)]
  }

  /** The paths the schema types as ObjectId, whose query values Mongoose casts. */
  predicate IsIdPath(key: string) {
    key == "_id" || key == "createBy" || key == "attendees" || key == "attendeesLead"
  }

  /** The paths the schema declares, `_id` included. */
  function SchemaPaths(): set<string> {
    {"_id", "agenda", "attendees", "attendeesLead", "location", "related", "dateTime", "notes",
     "createBy", "timestamp", "deleted"}
  }

  /** A query value given for an ObjectId path that does not cast makes `find` throw. */
  predicate CastFails(f: map<string, FilterValue>) {
    exists k | k in f :: IsIdPath(k) && !(f[k].Text? && ValidId(f[k].text))
  }

  /**
   * Whether one query condition holds of a meeting: equality on scalar paths,
   * membership on the id arrays. A missing field, a path the schema does not
   * declare, and `timestamp` (whose date cast is not modelled) match nothing.
   */
  function KeyMatches(m: Meeting, key: string, v: FilterValue): (b: bool)
    ensures b && v.Text? && IsIdPath(key) ==> ValidId(v.text)
    ensures key == "_id" && v.Text? ==> (b <==> ValidId(v.text) && ParseId(v.text).value == m.id)
    ensures key == "attendees" && v.Text? ==> (b <==> ValidId(v.text) && ParseId(v.text).value in m.attendees)
    ensures key == "attendeesLead" && v.Text? ==> (b <==> ValidId(v.text) && ParseId(v.text).value in m.attendeesLead)
    ensures key == "agenda" && v.Text? ==> (b <==> m.agenda == v.text)
    ensures v.Flag? ==> (b <==> key == "deleted" && m.deleted == v.flag)
    ensures key == "timestamp" || key !in SchemaPaths() ==> !b
  {
    match v
    case Flag(b) => key == "deleted" && m.deleted == b
    case Text(t) =>
      if key == "_id" then ParseId(t) == Some(m.id)
      else if key == "createBy" then ParseId(t).Some? && ParseId(t) == m.createBy
      else if key == "attendees" then ParseId(t).Some? && ParseId(t).value in m.attendees
      else if key == "attendeesLead" then ParseId(t).Some? && ParseId(t).value in m.attendeesLead
      else if key == "agenda" then m.agenda == t
      else if key == "location" then m.location == Some(t)
      else if key == "related" then m.related == Some(t)
      else if key == "dateTime" then m.dateTime == Some(t)
      else if key == "notes" then m.notes == Some(t)
      else false
  }

  /** A meeting matches a query when it meets every condition in it. */
  predicate Matches(m: Meeting, f: map<string, FilterValue>) {
    forall k | k in f :: KeyMatches(m, k, f[k])
  }

  /** One element of the listing: the stored fields without `createBy`, plus `createdByName`. */
  datatype ListedMeeting = ListedMeeting(
    id: Id,
    agenda: string,
    attendees: seq<Id>,
    attendeesLead: seq<Id>,
    location: Option<string>,
    related: Option<string>,
    dateTime: Option<string>,
    notes: Option<string>,
    timestamp: Time,
    deleted: bool,
    createdByName: Option<string>)

  /** `${x}` in a template literal: a missing name part reads as "undefined". */
  function TemplateText(s: Option<string>): string {
    s.GetOr("undefined")
  }

  /**
   * `createdByName` in the listing: `populate` resolves the creator, leaving null
   * when it does not, and the template literal joins the two name parts.
   */
  function ListedCreatorName(createBy: Option<Id>, users: map<Id, User>): (name: Option<string>)
    ensures name.Some? <==> createBy.Some? && createBy.value in users
    ensures name.Some? ==>
              name.value == TemplateText(users[createBy.value].firstName) + " " + TemplateText(users[createBy.value].lastName)
  {
    if createBy.Some? && createBy.value in users then
      var u := users[createBy.value];
      Some(TemplateText(u.firstName) + " " + TemplateText(u.lastName))
    else None
  }

  /** The listing entry for one meeting. */
  function ListEntry(m: Meeting, users: map<Id, User>): (e: ListedMeeting)
    ensures e.id == m.id && e.agenda == m.agenda && e.deleted == m.deleted && e.timestamp == m.timestamp
    ensures e.attendees == m.attendees && e.attendeesLead == m.attendeesLead
    ensures e.location == m.location && e.related == m.related
    ensures e.dateTime == m.dateTime && e.notes == m.notes
    ensures e.createdByName == ListedCreatorName(m.createBy, users)
  {
    ListedMeeting(m.id, m.agenda, m.attendees, m.attendeesLead, m.location, m.related,
                  m.dateTime, m.notes, m.timestamp, m.deleted, ListedCreatorName(m.createBy, users))
  }

  /** The identifiers of a listing, in listing order. */
  function ItemIds(items: seq<ListedMeeting>): (ids: seq<Id>)
    ensures |ids| == |items|
    ensures forall i | 0 <= i < |items| :: ids[i] == items[i].id
  {
    seq(|items|, i requires 0 <= i < |items| => items[i].id)
  }

  /** The response of `index`: 200 with the listing, or 500 when `find` throws. */
  datatype ListOutcome = ListOk(items: seq<ListedMeeting>) | ListFailed {
    function Status(): int {
      if ListOk? then 200 else 500
    }
  }

  /** `find` with the given store query and the `.map` that shapes each result, in store order. */
  function RunQuery(meetings: map<Id, Meeting>, order: seq<Id>, users: map<Id, User>, f: map<string, FilterValue>): (r: ListOutcome)
    requires Consistent(meetings, order)
    ensures r.ListFailed? <==> CastFails(f)
    ensures r.ListOk? ==> IsSubsequence(ItemIds(r.items), order)
    ensures r.ListOk? ==> forall item | item in r.items :: item.id in meetings && item == ListEntry(meetings[item.id], users)
    ensures r.ListOk? ==> forall id | id in meetings :: id in ItemIds(r.items) <==> Matches(meetings[id], f)
  {
    if CastFails(f) then ListFailed
    else
      var ids := Filter(order, id => id in meetings && Matches(meetings[id], f));
      var items := seq(|ids|, i requires 0 <= i < |ids| => ListEntry(meetings[ids[i]], users));
      assert ItemIds(items) == ids;
      ListOk(items)
  }

  /** `index`: the meetings matching the caller's query and `deleted: false`, in store order. */
  function Index(meetings: map<Id, Meeting>, order: seq<Id>, users: map<Id, User>, query: map<string, string>): (r: ListOutcome)
    requires Consistent(meetings, order)
    ensures r.ListFailed? <==> CastFails(StoreQuery(query))
    ensures r.ListOk? ==> IsSubsequence(ItemIds(r.items), order)
    ensures r.ListOk? ==> forall item | item in r.items :: !item.deleted
    ensures r.ListOk? ==> forall item | item in r.items :: item.id in meetings && item == ListEntry(meetings[item.id], users)
    ensures r.ListOk? ==> forall id | id in meetings :: id in ItemIds(r.items) <==> Matches(meetings[id], StoreQuery(query))
  {
    var f := StoreQuery(query);
    var r := RunQuery(meetings, order, users, f);
    assert r.ListOk? ==> forall item | item in r.items :: !item.deleted by {
      if r.ListOk? {
        forall item | item in r.items ensures !item.deleted {
          var i :| 0 <= i < |r.items| && r.items[i] == item;
          assert ItemIds(r.items)[i] == item.id;
          assert KeyMatches(meetings[item.id], "deleted", f["deleted"]);
        }
      }
    }
    r
  }

  /** The caller cannot reach deleted meetings: whatever `deleted` it passes is replaced. */
  lemma IndexIgnoresCallerDeleted(meetings: map<Id, Meeting>, order: seq<Id>, users: map<Id, User>,
                                  query: map<string, string>, given: string)
    requires Consistent(meetings, order)
    ensures Index(meetings, order, users, query["deleted" := given]) == Index(meetings, order, users, query - {"deleted"})
  {
    var a := StoreQuery(query["deleted" := given]);
    var b := StoreQuery(query - {"deleted"});
    assert a.Keys == b.Keys;
    assert forall k | k in a :: a[k] == b[k];
    assert a == b;
  }

  /**
   * Which meetings are listed: exactly the stored ones that are not deleted and
   * meet every condition of the caller other than `deleted`.
   */
  lemma IndexSelection(meetings: map<Id, Meeting>, order: seq<Id>, users: map<Id, User>,
                       query: map<string, string>, id: Id)
    requires Consistent(meetings, order)
    requires !CastFails(StoreQuery(query))
    requires id in meetings
    ensures id in ItemIds(Index(meetings, order, users, query).items) <==>
              && !meetings[id].deleted
              && forall k | k in query && k != "deleted" :: KeyMatches(meetings[id], k, Text(query[k]))
  {
    var f := StoreQuery(query);
    var m := meetings[id];
    if Matches(m, f) {
      assert KeyMatches(m, "deleted", f["deleted"]);
      forall k | k in query && k != "deleted" ensures KeyMatches(m, k, Text(query[k])) {
        assert KeyMatches(m, k, f[k]);
      }
    }
    if !m.deleted && forall k | k in query && k != "deleted" :: KeyMatches(m, k, Text(query[k])) {
      forall k | k in f ensures KeyMatches(m, k, f[k]) {
        if k != "deleted" {
          assert KeyMatches(m, k, Text(query[k]));
        }
      }
    }
  }

  /** The listing holds each meeting at most once. */
  lemma IndexListsEachMeetingOnce(meetings: map<Id, Meeting>, order: seq<Id>, users: map<Id, User>,
                                  query: map<string, string>)
    requires Consistent(meetings, order)
    requires !CastFails(StoreQuery(query))
    ensures Distinct(ItemIds(Index(meetings, order, users, query).items))
  {
    SubsequenceOfDistinct(ItemIds(Index(meetings, order, users, query).items), order);
  }

  // ----------------------------------------------------------------- view

  /** A joined contact after the projection: its `fullName` and nothing else. */
  datatype ContactName = ContactName(fullName: Option<string>)

  /** A joined lead after the projection: its `leadName` and nothing else. */
  datatype LeadName = LeadName(leadName: Option<string>)

  /** The document `view` returns; `createBy` and the raw id arrays are projected away. */
  datatype ViewedMeeting = ViewedMeeting(
    id: Id,
    agenda: string,
    location: Option<string>,
    related: Option<string>,
    dateTime: Option<string>,
    notes: Option<string>,
    timestamp: Time,
    deleted: bool,
    attendees: seq<ContactName>,
    attendeesLead: seq<LeadName>,
    createdByName: Option<string>)

  /**
   * `createdByName` in the view: `$concat` of the first matched user's names,
   * null when there is no such user or either name is missing.
   */
  function ViewedCreatorName(createBy: Option<Id>, users: map<Id, User>): (name: Option<string>)
    ensures name.Some? <==>
              createBy.Some? && createBy.value in users
              && users[createBy.value].firstName.Some? && users[createBy.value].lastName.Some?
    ensures name.Some? ==>
              name.value == users[createBy.value].firstName.value + " " + users[createBy.value].lastName.value
  {
    if createBy.Some? && createBy.value in users then
      var u := users[createBy.value];
      if u.firstName.Some? && u.lastName.Some? then Some(u.firstName.value + " " + u.lastName.value) else None
    else None
  }

  /**
   * The `$lookup` into contacts: each stored contact the meeting names, in the
   * order the store returns the contacts (`contacts`), and once per stored record.
   */
  function JoinedContacts(m: Meeting, contacts: seq<Contact>): (r: seq<Contact>)
    ensures IsSubsequence(r, contacts)
    ensures forall c | c in r :: c in contacts && c.id in m.attendees
    ensures forall c | c in contacts && c.id in m.attendees :: c in r
    ensures Distinct(contacts) ==> Distinct(r)
  {
    var r := Filter(contacts, (c: Contact) => c.id in m.attendees);
    if Distinct(contacts) then SubsequenceOfDistinct(r, contacts); r else r
  }

  /**
   * The `$lookup` into leads: each stored lead the meeting names, in the order the
   * store returns the leads (`leads`), and once per stored record.
   */
  function JoinedLeads(m: Meeting, leads: seq<Lead>): (r: seq<Lead>)
    ensures IsSubsequence(r, leads)
    ensures forall l | l in r :: l in leads && l.id in m.attendeesLead
    ensures forall l | l in leads && l.id in m.attendeesLead :: l in r
    ensures Distinct(leads) ==> Distinct(r)
  {
    var r := Filter(leads, (l: Lead) => l.id in m.attendeesLead);
    if Distinct(leads) then SubsequenceOfDistinct(r, leads); r else r
  }

  /** The `$map` over joined contacts: each reduced to `{fullName}`. */
  function FullNames(joined: seq<Contact>): (names: seq<ContactName>)
    ensures |names| == |joined|
    ensures forall i | 0 <= i < |joined| :: names[i] == ContactName(joined[i].fullName)
  {
    seq(|joined|, i requires 0 <= i < |joined| => ContactName(joined[i].fullName))
  }

  /** The `$map` over joined leads: each reduced to `{leadName}`. */
  function LeadNames(joined: seq<Lead>): (names: seq<LeadName>)
    ensures |names| == |joined|
    ensures forall i | 0 <= i < |joined| :: names[i] == LeadName(joined[i].leadName)
  {
    seq(|joined|, i requires 0 <= i < |joined| => LeadName(joined[i].leadName))
  }

  /**
   * The three lookups and the projection for one meeting: one entry per stored
   * contact and per stored lead the meeting references, in the order the store
   * returns them, each reduced to its name.
   */
  function Resolve(m: Meeting, contacts: seq<Contact>, leads: seq<Lead>, users: map<Id, User>): (v: ViewedMeeting)
    ensures v.id == m.id && v.agenda == m.agenda && v.location == m.location && v.related == m.related
    ensures v.dateTime == m.dateTime && v.notes == m.notes && v.timestamp == m.timestamp && v.deleted == m.deleted
    ensures |v.attendees| <= |contacts| && |v.attendeesLead| <= |leads|
    ensures forall c | c in contacts && c.id in m.attendees :: ContactName(c.fullName) in v.attendees
    ensures forall n | n in v.attendees :: exists c | c in contacts :: c.id in m.attendees && n == ContactName(c.fullName)
    ensures forall l | l in leads && l.id in m.attendeesLead :: LeadName(l.leadName) in v.attendeesLead
    ensures forall n | n in v.attendeesLead :: exists l | l in leads :: l.id in m.attendeesLead && n == LeadName(l.leadName)
    ensures v.attendees == FullNames(JoinedContacts(m, contacts))
    ensures v.attendeesLead == LeadNames(JoinedLeads(m, leads))
    ensures v.createdByName == ViewedCreatorName(m.createBy, users)
  {
    var joinedContacts := JoinedContacts(m, contacts);
    var joinedLeads := JoinedLeads(m, leads);
    SubsequenceLength(joinedContacts, contacts);
    SubsequenceLength(joinedLeads, leads);
    var names := FullNames(joinedContacts);
    var leadNames := LeadNames(joinedLeads);
    FullNamesMembers(joinedContacts);
    LeadNamesMembers(joinedLeads);
    ViewedMeeting(m.id, m.agenda, m.location, m.related, m.dateTime, m.notes, m.timestamp, m.deleted,
                  names, leadNames, ViewedCreatorName(m.createBy, users))
  }

  /** Every joined contact contributes its name, and every name comes from a joined contact. */
  lemma FullNamesMembers(joined: seq<Contact>)
    ensures forall c | c in joined :: ContactName(c.fullName) in FullNames(joined)
    ensures forall n | n in FullNames(joined) :: exists c | c in joined :: n == ContactName(c.fullName)
  {
    var names := FullNames(joined);
    forall c | c in joined ensures ContactName(c.fullName) in names {
      var i :| 0 <= i < |joined| && joined[i] == c;
      assert names[i] == ContactName(c.fullName);
    }
    forall n | n in names ensures exists c | c in joined :: n == ContactName(c.fullName) {
      var i :| 0 <= i < |names| && names[i] == n;
      assert joined[i] in joined;
    }
  }

  /** Every joined lead contributes its name, and every name comes from a joined lead. */
  lemma LeadNamesMembers(joined: seq<Lead>)
    ensures forall l | l in joined :: LeadName(l.leadName) in LeadNames(joined)
    ensures forall n | n in LeadNames(joined) :: exists l | l in joined :: n == LeadName(l.leadName)
  {
    var names := LeadNames(joined);
    forall l | l in joined ensures LeadName(l.leadName) in names {
      var i :| 0 <= i < |joined| && joined[i] == l;
      assert names[i] == LeadName(l.leadName);
    }
    forall n | n in names ensures exists l | l in joined :: n == LeadName(l.leadName) {
      var i :| 0 <= i < |names| && names[i] == n;
      assert joined[i] in joined;
    }
  }

  /**
   * The response of `view`: 200 with the joined document, or with no body at all
   * when nothing matched; 500 when the identifier does not convert.
   */
  datatype ViewOutcome = ViewOk(doc: Option<ViewedMeeting>) | ViewFailed {
    function Status(): int {
      if ViewOk? then 200 else 500
    }
  }

  /** `view`: the aggregate's first element. The `!meeting` guard tests the array, so it never fires. */
  function View(meetings: map<Id, Meeting>, contacts: seq<Contact>, leads: seq<Lead>, users: map<Id, User>,
                rawId: string): (r: ViewOutcome)
    ensures r.ViewFailed? <==> !ValidId(rawId)
    ensures r.ViewOk? ==> (r.doc.Some? <==> ParseId(rawId).value in meetings)
    ensures r.ViewOk? && r.doc.Some? ==> r.doc.value == Resolve(meetings[ParseId(rawId).value], contacts, leads, users)
  {
    match ParseId(rawId)
    case None => ViewFailed
    case Some(id) =>
      // `$match` on `_id`: the aggregate is empty or holds this one meeting.
      var matched := if id in meetings then [meetings[id]] else [];
      // `meeting[0]` of an empty array is undefined: still a 200, with no body.
      ViewOk(if matched != [] then Some(Resolve(matched[0], contacts, leads, users)) else None)
  }

  /** An identifier that converts but names no meeting is answered 200 without a body, never 404. */
  lemma ViewOfUnknownIdIsNotNotFound(meetings: map<Id, Meeting>, contacts: seq<Contact>, leads: seq<Lead>,
                                     users: map<Id, User>, rawId: string)
    requires ValidId(rawId) && ParseId(rawId).value !in meetings
    ensures View(meetings, contacts, leads, users, rawId) == ViewOk(None)
    ensures View(meetings, contacts, leads, users, rawId).Status() == 200
  {
  }

  /**
   * The join reads the id arrays only through which contacts and leads they
   * reference: their order, repetitions and dangling identifiers change nothing.
   */
  lemma {:induction false} ResolveDependsOnlyOnReferencedRecords(m: Meeting, m': Meeting, contacts: seq<Contact>,
                                                                leads: seq<Lead>, users: map<Id, User>)
    requires m'.(attendees := m.attendees, attendeesLead := m.attendeesLead) == m
    requires forall c | c in contacts :: c.id in m.attendees <==> c.id in m'.attendees
    requires forall l | l in leads :: l.id in m.attendeesLead <==> l.id in m'.attendeesLead
    ensures Resolve(m, contacts, leads, users) == Resolve(m', contacts, leads, users)
  {
    FilterCongruence(contacts, (c: Contact) => c.id in m.attendees, (c: Contact) => c.id in m'.attendees);
    FilterCongruence(leads, (l: Lead) => l.id in m.attendeesLead, (l: Lead) => l.id in m'.attendeesLead);
    assert JoinedContacts(m, contacts) == JoinedContacts(m', contacts);
    assert JoinedLeads(m, leads) == JoinedLeads(m', leads);
  }

  /**
   * The two handlers name the creator differently: with both name parts present
   * they agree; with a part missing the listing spells "undefined" and the view
   * gives null.
   */
  lemma CreatorNamesOfListAndView(createBy: Option<Id>, users: map<Id, User>)
    ensures ViewedCreatorName(createBy, users).Some? ==> ListedCreatorName(createBy, users) == ViewedCreatorName(createBy, users)
    ensures createBy.Some? && createBy.value in users && users[createBy.value].firstName.None? ==>
              && ListedCreatorName(createBy, users) == Some("undefined " + TemplateText(users[createBy.value].lastName))
              && ViewedCreatorName(createBy, users) == None
    ensures createBy.Some? && createBy.value in users && users[createBy.value].lastName.None? ==>
              && ListedCreatorName(createBy, users) == Some(TemplateText(users[createBy.value].firstName) + " undefined")
              && ViewedCreatorName(createBy, users) == None
  {
    if createBy.Some? && createBy.value in users {
      var u := users[createBy.value];
      assert "undefined" + " " + TemplateText(u.lastName) == "undefined " + TemplateText(u.lastName);
      assert TemplateText(u.firstName) + " " + "undefined" == TemplateText(u.firstName) + " undefined";
    }
  }

  /**
   * A worked case of the join: a meeting that names contacts B, a dangling
   * identifier and A (stored in the order A, B), one lead, and creator Jane Doe.
   */
  lemma ViewExample()
    ensures var m := Meeting(ExampleId('1'), "Review", [ExampleId('b'), ExampleId('c'), ExampleId('a')],
                             [ExampleId('d')], None, Some("Contact"), None, None, Some(ExampleId('e')), 0, false);
            var contacts := [Contact(ExampleId('a'), Some("Ann")), Contact(ExampleId('b'), Some("Bob")),
                             Contact(ExampleId('f'), Some("Other"))];
            var users := map[ExampleId('e') := User(Some("Jane"), Some("Doe"))];
            View(map[ExampleId('1') := m], contacts, [Lead(ExampleId('d'), Some("Lee"))], users, ExampleId('1'))
              == ViewOk(Some(ViewedMeeting(ExampleId('1'), "Review", None, Some("Contact"), None, None, 0, false,
                                           [ContactName(Some("Ann")), ContactName(Some("Bob"))],
                                           [LeadName(Some("Lee"))], Some("Jane Doe"))))
  {
    var m := Meeting(ExampleId('1'), "Review", [ExampleId('b'), ExampleId('c'), ExampleId('a')],
                     [ExampleId('d')], None, Some("Contact"), None, None, Some(ExampleId('e')), 0, false);
    var contacts := [Contact(ExampleId('a'), Some("Ann")), Contact(ExampleId('b'), Some("Bob")),
                     Contact(ExampleId('f'), Some("Other"))];
    var leads := [Lead(ExampleId('d'), Some("Lee"))];
    var users := map[ExampleId('e') := User(Some("Jane"), Some("Doe"))];
    ExampleIdsDiffer();
    assert JoinedContacts(m, contacts) == [contacts[0], contacts[1]] by {
      var keep := (c: Contact) => c.id in m.attendees;
      assert Filter(contacts[2..], keep) == [] by {
        assert contacts[2..][1..] == [];
      }
      assert contacts[1..][1..] == contacts[2..];
    }
    assert JoinedLeads(m, leads) == leads by {
      assert leads[1..] == [];
    }
    assert ViewedCreatorName(m.createBy, users) == Some("Jane Doe") by {
      assert "Jane" + " " + "Doe" == "Jane Doe";
    }
    assert FullNames([contacts[0], contacts[1]]) == [ContactName(Some("Ann")), ContactName(Some("Bob"))];
    assert LeadNames(leads) == [LeadName(Some("Lee"))];
    assert View(map[ExampleId('1') := m], contacts, leads, users, ExampleId('1'))
             == ViewOk(Some(Resolve(m, contacts, leads, users)));
  }

  /** A 24-digit identifier made of one repeated digit, for the worked case. */
  function ExampleId(digit: char): (id: Id)
    requires IsLowerHexDigit(digit)
    ensures IsCanonical(id) && id[0] == digit
  {
    seq(24, _ => digit)
  }

  lemma ExampleIdsDiffer()
    ensures ExampleId('a') != ExampleId('b') && ExampleId('a') != ExampleId('c') && ExampleId('a') != ExampleId('f')
    ensures ExampleId('b') != ExampleId('c') && ExampleId('b') != ExampleId('f') && ExampleId('c') != ExampleId('f')
  {
  }
}

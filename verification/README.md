# Meetings: a verified model of the record logic

This project models the server side of the CRM's "meetings" feature and the pure
parts of its create-meeting form, in Dafny. It covers:

- the meeting schema (fields, the required agenda, the ObjectId casts, the `timestamp` and `deleted` defaults);
- the controller's five handlers: `add`, `index`, `view`, `deleteData` and `deleteMany`;
- the form's initial values, its attendee picker's options and selection, and how a selection change is routed.

The meeting collection is held by a class, `MeetingController.MeetingStore`. It has a map
from identifier to meeting and the collection's natural order (`order`), the order in
which `find` returns documents. The database does not specify where a new document
falls in it, so `add` takes that position as a parameter. The handlers
that write (`add`, `deleteData`, `deleteMany`) are methods with `modifies this`. The
handlers that only read (`index`, `view`) are functions over the store's contents. The
contact and lead collections are sequences, in the order the store returns their
documents (an order the database does not specify). The user collection is a map. All three are read-only.

Identifiers arrive as text. `ObjectIds.ParseId` accepts exactly the 24-hex-digit strings
the ObjectId constructor accepts and returns the lower-case stored form. A failed
conversion is how the model shows an exception thrown by the constructor or by a
Mongoose cast.

Each handler's response is a datatype. Its `Status()` gives the HTTP code:
- `add`: 200 with the saved meeting; 400 on a validation error or a duplicate `_id`.
- `index`: 200 with the listing; 500 when a query value for an ObjectId path does not cast.
- `view`: 200, with or without a document; 500 for an identifier that does not convert.
- `deleteData`: 200 with the updated meeting; 404; 500 for an identifier that does not convert.
- `deleteMany`: 200 with `modifiedCount`; 400 for a body that is not a non-empty array; 404 when nothing matched; 500 when an identifier does not convert.

Behaviour of the code worth noting:
- `createBy` is declared with `require`, not `required`, so a meeting without a creator is stored (`CreatorIsNotRequired`).
- `related` is free text, with no check against Contact / Lead / None (`RelatedIsUnconstrained`).
- A body may set `timestamp` and `deleted` itself. The defaults apply only when it does not.
- The schema also refuses an empty agenda, because Mongoose's required check on a string rejects `""`.
- `view` never answers 404. Its guard tests the aggregate array, which is never falsy. An unknown but well-formed identifier gets a 200 with no body (`ViewOfUnknownIdIsNotNotFound`).
- When the creator cannot be resolved, both handlers give `createdByName` as null.
- When the creator is found but a name part is missing, `index` writes "undefined" for that part (a template literal). `view` gives null (`$concat`). See `CreatorNamesOfListAndView`.
- `deleteData` calls `findByIdAndUpdate` with no update, so that call is only a lookup. The flag is then set on the document and saved.
- `$lookup` returns one entry per stored contact or lead the meeting references, in the order the store returns them (unspecified). The order of the meeting's id array, repeated ids and dangling ids do not affect the result (`ResolveDependsOnlyOnReferencedRecords`).

## Model

| member | source | states |
|---|---|---|
| `ObjectIds.ParseId` | server/controllers/meeting/meeting.js:47 | text converts exactly when it is 24 hex digits; the result is the canonical lower-case form and a canonical input is returned unchanged |
| `ObjectIds.ParseAll` | server/model/schema/meeting.js:5-12 | casting an id array keeps its length and casts each element in place |
| `MeetingSchema.Create` | server/model/schema/meeting.js:3-31 | saving fails exactly when some path fails, and reports those paths; a saved meeting is well formed, carries the body's values, and uses the generated id, `Date.now` and `false` where the body gives no `_id`, `timestamp` or `deleted` |
| `MeetingSchema.AgendaIsTheOnlyRequiredField` | server/model/schema/meeting.js:4 | with all identifiers well formed, a meeting saves if and only if it has a non-empty agenda; otherwise the only failing path is `agenda` |
| `MeetingSchema.CreatorIsNotRequired` | server/model/schema/meeting.js:18-22 | a body without `createBy` that is otherwise valid is saved, with no creator |
| `MeetingSchema.RelatedIsUnconstrained` | server/model/schema/meeting.js:14 | any text as `related` leaves acceptance unchanged and is stored as given |
| `MeetingSchema.DefaultsOnCreate` | server/model/schema/meeting.js:23-30 | a meeting saved without `deleted` or `timestamp` is not deleted and is stamped with the save time |
| `MeetingQueries.StoreQuery` | server/controllers/meeting/meeting.js:17 | the store query has the caller's keys plus `deleted`; `deleted` is `false` whatever the caller sent, and every other caller key keeps its value |
| `MeetingQueries.KeyMatches` | server/controllers/meeting/meeting.js:20 | one query condition: a match on an ObjectId path needs a value that casts; `_id` matches the converted id, `attendees` and `attendeesLead` match when the converted id is in the array, `agenda` by equality, `deleted` only against the boolean flag; `timestamp` and undeclared paths match nothing |
| `MeetingQueries.ListedCreatorName` | server/controllers/meeting/meeting.js:21-25 | the name is present exactly when the creator resolves to a user; it is first name, a space, last name, with "undefined" for a missing part |
| `MeetingQueries.ListEntry` | server/controllers/meeting/meeting.js:27-31 | a listing entry keeps every stored field except `createBy`, which it replaces with `createdByName` |
| `MeetingQueries.RunQuery` | server/controllers/meeting/meeting.js:20-32 | `find` fails exactly on a cast failure; otherwise it lists exactly the matching meetings, each shaped by `ListEntry`, in store order |
| `MeetingQueries.Index` | server/controllers/meeting/meeting.js:15-38 | `index` fails only on a cast failure; it lists exactly the stored meetings that match the caller's query with `deleted: false`, in store order, and no listed entry is deleted |
| `MeetingQueries.IndexIgnoresCallerDeleted` | server/controllers/meeting/meeting.js:17 | any `deleted` value the caller sends gives the same response as sending none |
| `MeetingQueries.IndexSelection` | server/controllers/meeting/meeting.js:17-20 | a stored meeting is listed if and only if it is not deleted and meets every caller condition other than `deleted` |
| `MeetingQueries.IndexListsEachMeetingOnce` | server/controllers/meeting/meeting.js:24-32 | the listing holds no meeting twice, so it has one entry per matched meeting |
| `MeetingQueries.JoinedContacts` | server/controllers/meeting/meeting.js:51-59 | the contacts `$lookup`: a subsequence of the stored contacts in the order the store returns them, holding exactly the contacts whose id the meeting's `attendees` holds, with no repeats when the store has none |
| `MeetingQueries.JoinedLeads` | server/controllers/meeting/meeting.js:61-68 | the leads `$lookup`: a subsequence of the stored leads in the order the store returns them, holding exactly the leads whose id the meeting's `attendeesLead` holds, with no repeats when the store has none |
| `MeetingQueries.FullNames` | server/controllers/meeting/meeting.js:93-101 | each joined contact becomes `{fullName}` alone, same count, same order |
| `MeetingQueries.LeadNames` | server/controllers/meeting/meeting.js:104-112 | each joined lead becomes `{leadName}` alone, same count, same order |
| `MeetingQueries.ViewedCreatorName` | server/controllers/meeting/meeting.js:114-124 | the name is present exactly when the creator is a stored user with both names, and is then first name, a space, last name |
| `MeetingQueries.Resolve` | server/controllers/meeting/meeting.js:50-126 | the view keeps `_id`, agenda, location, related, dateTime, notes, timestamp and deleted; its attendee lists are the names of the joined records, one entry per stored contact or lead the meeting references, in the order the store returns them; it names every such record and only those, and has no more entries than the collections |
| `MeetingQueries.View` | server/controllers/meeting/meeting.js:40-136 | 500 exactly when the id does not convert; otherwise 200, with the resolved meeting when it is stored and no body when it is not |
| `MeetingQueries.ViewOfUnknownIdIsNotNotFound` | server/controllers/meeting/meeting.js:128-131 | a well-formed id that names no meeting is answered 200 with no body, never 404 |
| `MeetingQueries.ResolveDependsOnlyOnReferencedRecords` | server/controllers/meeting/meeting.js:50-68 | two meetings that reference the same stored contacts and leads get the same view, whatever the order, repetitions or dangling ids of their id arrays |
| `MeetingQueries.CreatorNamesOfListAndView` | server/controllers/meeting/meeting.js:114-124 | with both name parts present, `view` and `index` (line 25) give the same name; with a part missing, `index` gives "undefined" for it and `view` gives null |
| `MeetingQueries.ViewExample` | server/controllers/meeting/meeting.js:44-131 | a meeting that names contacts B, a dangling id and A (stored as A, B), with creator Jane Doe, is viewed as attendees [Ann, Bob], its lead, and "Jane Doe" |
| `MeetingController.MarkDeleted` | server/controllers/meeting/meeting.js:172 | the batch update keeps every record; named records become deleted, others keep their flag, and no field other than `deleted` changes |
| `MeetingController.IdSet` | server/controllers/meeting/meeting.js:169 | the converted batch holds exactly the converted form of each given identifier |
| `MeetingController.DeleteManyCounts` | server/controllers/meeting/meeting.js:172-180 | `modifiedCount` ≤ `matchedCount` ≤ distinct identifiers given ≤ identifiers given |
| `MeetingController.MarkDeletedWithoutMatchIsIdentity` | server/controllers/meeting/meeting.js:172-176 | an update that matches nothing leaves the collection unchanged, so the 404 path changes nothing |
| `MeetingController.MarkDeletedIdempotent` | server/controllers/meeting/meeting.js:143-152 | deleting again changes nothing, and a repeated batch modifies no record |
| `MeetingController.DeletedMeetingsAreNotListed` | server/controllers/meeting/meeting.js:148-150 | soft-deleting keeps the collection consistent, and no soft-deleted meeting appears in any later listing |
| `MeetingController.MeetingStore.Add` | server/controllers/meeting/meeting.js:4-13 | a valid body with a new id is stored and inserted once into the natural order, at the given position, the other identifiers keeping their order; a validation error or an existing id gives 400 and changes nothing |
| `MeetingController.MeetingStore.DeleteData` | server/controllers/meeting/meeting.js:138-157 | a bad id gives 500 and an unknown id 404, both without change; a known id has only its `deleted` set, even when already deleted, and is returned |
| `MeetingController.MeetingStore.DeleteMany` | server/controllers/meeting/meeting.js:160-186 | a non-array or empty body gives 400 and a non-converting id 500, both without change; otherwise every named meeting is marked deleted; 404 with no change when none matched, else 200 with the number actually modified |
| `AddMeetingForm.InitialValues` | client/src/views/admin/meeting/components/Addmeeting.js:49-58 | `related` is Contact, Lead or None by the opening page; each attendee list holds the page's record exactly for its own page with a truthy id; `createBy` is the user's id; the text fields start empty |
| `AddMeetingForm.InitialAttendeesAgreeWithRelated` | client/src/views/admin/meeting/components/Addmeeting.js:51-54 | at most one attendee list starts non-empty, and it is the one `related` selects |
| `AddMeetingForm.ExtractLabels` | client/src/views/admin/meeting/components/Addmeeting.js:88-90 | the ids of the selected options, same length, same order |
| `AddMeetingForm.PickerItems` | client/src/views/admin/meeting/components/Addmeeting.js:92-95 | contacts for Contact, leads otherwise, each kept with value = `_id` and the matching name as label; empty when the data is not an array |
| `AddMeetingForm.SelectedItems` | client/src/views/admin/meeting/components/Addmeeting.js:154 | exactly the options whose id the active attendee list holds, in option order; none when `related` is neither Contact nor Lead |
| `AddMeetingForm.OnSelectedItemsChange` | client/src/views/admin/meeting/components/Addmeeting.js:155-158 | the selected ids replace `attendees` for Contact or `attendeesLead` for Lead; for any other `related` nothing changes |
| `AddMeetingForm.PickerSelectionIds` | client/src/views/admin/meeting/components/Addmeeting.js:88-154 | for Contact or Lead, the picker's selection read back as ids is exactly the ids of the source records that the active attendee list holds, in record order; nothing when the source data is not loaded |
| `AddMeetingForm.SelectionRoundTrip` | client/src/views/admin/meeting/components/Addmeeting.js:154-158 | after a selection change the picker shows exactly the options that share an id with a chosen one |
| `AddMeetingForm.Submitted` | client/src/views/admin/meeting/components/Addmeeting.js:67-70 | the posted body carries every form field (agenda, attendees, attendeesLead, location, related, dateTime, notes), drops an undefined creator, and leaves `_id`, `timestamp` and `deleted` to the server |
| `AddMeetingForm.SubmittedFormOnSave` | client/src/views/admin/meeting/components/Addmeeting.js:49-70 | a submitted form with an agenda and well-formed ids is saved not deleted, stamped now, with a generated id; with an empty agenda it fails on `agenda` alone |

## Left out

- Routing and the authentication middleware (server/controllers/meeting/_routes.js): wiring only.
- The database: `save`, `find`, `populate`, `aggregate` and `updateMany` are replaced by operations on the in-memory map and sequences. Store unavailability (the 500 of `index`, `add`'s other save failures) and concurrency between requests are not modelled.
- The write that `add` performs, `generatedId` and `now`: they are parameters (the driver's identifier generator and the clock).
- `ObjectIds.ParseId`: the ObjectId constructor also accepts a 12-byte string and non-string values such as numbers. Only the 24-hex-digit form is modelled as valid.
- `MeetingController.RequestBody`: array elements that are not strings are not modelled.
- `MeetingQueries.KeyMatches`: query values are query-string text only. Nested or array query values and Mongoose's casts of text to boolean or date are not modelled. A `timestamp` filter and a `deleted` given as text (always replaced anyway) match nothing. A path the schema does not declare also matches nothing: this is Mongoose 7 or later, where `strictQuery` is false by default and the unknown key reaches the database. Under Mongoose 6 the key would be stripped and match every meeting; that version is not modelled.
- `MeetingQueries.Resolve`: one `users` map stands for both the User model that `index` populates through and the `"User"` collection that `view` looks up. The model assumes they hold the same data.
- `MeetingQueries.JoinedContacts` and `MeetingQueries.JoinedLeads`: the `"Contacts"` and `"Leads"` collections named in the lookups are taken to be the contact and lead data. Their documents' order is a parameter (the sequence given), since the database does not specify it.
- `MeetingSchema.Create`: the String paths (`agenda`, `location`, `related`, `dateTime`, `notes`) are modelled as absent or text, `timestamp` and `deleted` as absent or a well-typed value, and `attendees`/`attendeesLead` as arrays of text. Not modelled: a number or boolean given for a String path, which Mongoose casts to text and saves; an object or array given for a String path, or a value for `timestamp` or `deleted` that does not cast, each a cast error that `add` answers with 400; a date string cast to a timestamp; a single identifier given for `attendees` or `attendeesLead`, which Mongoose casts to a one-element array; and an explicit `null`, stored as null without applying a default.
- `MeetingController.MeetingStore.Add`: the natural order is not taken to be insertion order. Where the new identifier lands is the `position` parameter, so `index` listings are proved for any placement but no particular one is promised.
- The version key `__v` that Mongoose adds to each document, and fields in a body that the schema does not declare (strict mode drops them).
- `console.error` logging, and the error details in each response body. Only the status code and the payload's shape are kept.
- The form's rendering, modal, toasts, the `isLoding` state, the `postApi` call, the Redux selectors (the contact and lead data are parameters), the `localStorage` read (the user id is a parameter) and the empty `useEffect`.
- The form's `MeetingSchema` validation and the `MultiContactModel` and `MultiLeadModel` components. Their source is not part of this model.
- Date handling in the form (`todayTime` and the `dayjs` lower bound on `dateTime`): wall-clock time and formatting.

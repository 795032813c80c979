/**
 * The pure derivations of the create-meeting form: its initial values, the
 * attendee picker's options and selection, the routing of a selection change,
 * and the body the form submits.
 */
module AddMeetingForm {
  import opened Wrappers
  import opened Sequences
  import opened ObjectIds
  import opened MeetingSchema

  /** The form's values; identifiers are text, as the browser holds them. */
  datatype FormValues = FormValues(
    agenda: string,
    attendees: seq<string>,
    attendeesLead: seq<string>,
    location: string,
    related: string,
    dateTime: string,
    notes: string,
    createBy: Option<string>)

  /** JavaScript truthiness of an optional string property. */
  predicate Truthy(s: Option<string>) {
    s.Some? && s.value != ""
  }

  /**
   * `initialValues`. `leadContect` and `id` are the component's properties (the
   * page it is opened from and that page's record); `userId` is the signed-in
   * user's `_id`, read from local storage by the component.
   */
  function InitialValues(leadContect: Option<string>, id: Option<string>, userId: Option<string>): (v: FormValues)
    ensures v.agenda == "" && v.location == "" && v.dateTime == "" && v.notes == ""
    ensures v.createBy == userId
    ensures v.related == "Contact" <==> leadContect == Some("contactView")
    ensures v.related == "Lead" <==> leadContect == Some("leadView")
    ensures v.related != "Contact" && v.related != "Lead" ==> v.related == "None"
    ensures v.attendees != [] <==> leadContect == Some("contactView") && Truthy(id)
    ensures v.attendeesLead != [] <==> leadContect == Some("leadView") && Truthy(id)
    ensures v.attendees != [] ==> v.attendees == [id.value]
    ensures v.attendeesLead != [] ==> v.attendeesLead == [id.value]
  {
    FormValues(
      agenda := "",
      attendees := if leadContect == Some("contactView") && Truthy(id) then [id.value] else [],
      attendeesLead := if leadContect == Some("leadView") && Truthy(id) then [id.value] else [],
      location := "",
      related := if leadContect == Some("contactView") then "Contact"
                 else if leadContect == Some("leadView") then "Lead"
                 else "None",
      dateTime := "",
      notes := "",
      createBy := userId)
  }

  /** At most one attendee list starts non-empty, and it is the one `related` selects. */
  lemma InitialAttendeesAgreeWithRelated(leadContect: Option<string>, id: Option<string>, userId: Option<string>)
    ensures InitialValues(leadContect, id, userId).attendees == [] || InitialValues(leadContect, id, userId).attendeesLead == []
    ensures InitialValues(leadContect, id, userId).attendees != [] ==> InitialValues(leadContect, id, userId).related == "Contact"
    ensures InitialValues(leadContect, id, userId).attendeesLead != [] ==> InitialValues(leadContect, id, userId).related == "Lead"
  {
  }

  /** A contact or lead record from the client's store (contacts carry `fullName`, leads `leadName`). */
  datatype Record = Record(id: string, fullName: Option<string>, leadName: Option<string>)

  /** A picker option: the record spread out, plus `value` and `label` (here `labelText`). */
  datatype PickerItem = PickerItem(item: Record, value: string, labelText: Option<string>)

  /** `extractLabels`: the `_id` of every selected option, in selection order. */
  function ExtractLabels(selected: seq<PickerItem>): (ids: seq<string>)
    ensures |ids| == |selected|
    ensures forall i | 0 <= i < |selected| :: ids[i] == selected[i].item.id
  {
    seq(|selected|, i requires 0 <= i < |selected| => selected[i].item.id)
  }

  /**
   * The option list: contacts when `related` is "Contact", leads for any other
   * value, each with its `_id` as value and its name as label; empty when the
   * chosen data is not an array (None).
   */
  function PickerItems(related: string, contactData: Option<seq<Record>>, leadData: Option<seq<Record>>): (items: seq<PickerItem>)
    ensures var source := if related == "Contact" then contactData else leadData;
      && (source.None? ==> items == [])
      && (source.Some? ==> |items| == |source.value|)
      && (source.Some? ==> forall i | 0 <= i < |items| ::
            && items[i].item == source.value[i]
            && items[i].value == source.value[i].id
            && items[i].labelText == (if related == "Contact" then source.value[i].fullName else source.value[i].leadName))
  {
    var source := if related == "Contact" then contactData else leadData;
    match source
    case None => []
    case Some(records) =>
      seq(|records|, i requires 0 <= i < |records| =>
        PickerItem(records[i], records[i].id,
                   if related == "Contact" then records[i].fullName else records[i].leadName))
  }

  /** Whether the form's values hold an identifier in the list that `related` selects. */
  predicate HoldsAttendee(values: FormValues, id: string) {
    if values.related == "Contact" then id in values.attendees
    else values.related == "Lead" && id in values.attendeesLead
  }

  /** `selectedItems`: the options whose `_id` the active attendee list holds, in option order. */
  function SelectedItems(items: seq<PickerItem>, values: FormValues): (selected: seq<PickerItem>)
    ensures IsSubsequence(selected, items)
    ensures forall x | x in selected :: x in items && HoldsAttendee(values, x.item.id)
    ensures forall x | x in items && HoldsAttendee(values, x.item.id) :: x in selected
    ensures values.related != "Contact" && values.related != "Lead" ==> selected == []
  {
    var selected := Filter(items, (x: PickerItem) => HoldsAttendee(values, x.item.id));
    assert values.related != "Contact" && values.related != "Lead" ==> selected == [] by {
      if selected != [] {
        assert selected[0] in selected;
      }
    }
    selected
  }

  /**
   * `onSelectedItemsChange`: the selection's identifiers replace `attendees` for
   * "Contact" or `attendeesLead` for "Lead"; for any other `related` nothing is written.
   */
  function OnSelectedItemsChange(values: FormValues, selected: seq<PickerItem>): (v: FormValues)
    ensures values.related == "Contact" ==> v == values.(attendees := ExtractLabels(selected))
    ensures values.related == "Lead" ==> v == values.(attendeesLead := ExtractLabels(selected))
    ensures values.related != "Contact" && values.related != "Lead" ==> v == values
  {
    if values.related == "Contact" then values.(attendees := ExtractLabels(selected))
    else if values.related == "Lead" then values.(attendeesLead := ExtractLabels(selected))
    else values
  }

  /**
   * Choosing options and reading the selection back: the picker then shows every
   * option that shares an identifier with a chosen one, and nothing else.
   */
  lemma SelectionRoundTrip(items: seq<PickerItem>, values: FormValues, chosen: seq<PickerItem>)
    requires values.related == "Contact" || values.related == "Lead"
    ensures forall x | x in items ::
              x in SelectedItems(items, OnSelectedItemsChange(values, chosen)) <==>
              exists c | c in chosen :: c.item.id == x.item.id
  {
    var after := OnSelectedItemsChange(values, chosen);
    var labels := ExtractLabels(chosen);
    forall x | x in items
      ensures HoldsAttendee(after, x.item.id) <==> exists c | c in chosen :: c.item.id == x.item.id
    {
      if x.item.id in labels {
        var i :| 0 <= i < |labels| && labels[i] == x.item.id;
        assert chosen[i] in chosen;
      }
      if exists c | c in chosen :: c.item.id == x.item.id {
        var c :| c in chosen && c.item.id == x.item.id;
        var i :| 0 <= i < |chosen| && chosen[i] == c;
        assert labels[i] == x.item.id;
      }
    }
  }

  /**
   * The body the form posts: `JSON.stringify` of the values, which drops an
   * undefined `createBy`. The schema's own defaults fill the rest.
   */
  function Submitted(values: FormValues): (p: Payload)
    ensures p.id.None? && p.timestamp.None? && p.deleted.None?
    ensures p.agenda == Some(values.agenda) && p.createBy == values.createBy
    ensures p.attendees == values.attendees && p.attendeesLead == values.attendeesLead
    ensures p.related == Some(values.related)
    ensures p.location == Some(values.location) && p.dateTime == Some(values.dateTime) && p.notes == Some(values.notes)
  {
    Payload(
      id := None,
      agenda := Some(values.agenda),
      attendees := values.attendees,
      attendeesLead := values.attendeesLead,
      location := Some(values.location),
      related := Some(values.related),
      dateTime := Some(values.dateTime),
      notes := Some(values.notes),
      createBy := values.createBy,
      timestamp := None,
      deleted := None)
  }

  /**
   * A submitted form with an agenda and well-formed identifiers is stored, not
   * deleted and stamped with the save time; with an empty agenda it is refused
   * on that path alone.
   */
  lemma SubmittedFormOnSave(values: FormValues, generatedId: Id, now: Time)
    requires IsCanonical(generatedId)
    requires AllValid(values.attendees) && AllValid(values.attendeesLead)
    requires values.createBy.Some? ==> ValidId(values.createBy.value)
    ensures values.agenda != "" ==>
              && Create(Submitted(values), generatedId, now).Success?
              && !Create(Submitted(values), generatedId, now).value.deleted
              && Create(Submitted(values), generatedId, now).value.timestamp == now
              && Create(Submitted(values), generatedId, now).value.id == generatedId
    ensures values.agenda == "" ==> Create(Submitted(values), generatedId, now) == Failure(ValidationError({"agenda"}))
  {
  }

  /**
   * The picker's selection read back as identifiers: the ids of the source records
   * that the active attendee list holds, in record order.
   */
  lemma {:induction false} PickerSelectionIds(values: FormValues, contactData: Option<seq<Record>>, leadData: Option<seq<Record>>)
    requires values.related == "Contact" || values.related == "Lead"
    ensures var source := if values.related == "Contact" then contactData else leadData;
            var ids := ExtractLabels(SelectedItems(PickerItems(values.related, contactData, leadData), values));
            && (source.None? ==> ids == [])
            && (source.Some? ==> ids == SelectedIds(source.value, values))
  {
    var source := if values.related == "Contact" then contactData else leadData;
    if source.Some? {
      SelectedIdsOfItems(PickerItems(values.related, contactData, leadData), source.value, values);
    }
  }

  /** The ids of the records whose id the active attendee list holds, in record order. */
  function SelectedIds(records: seq<Record>, values: FormValues): (ids: seq<string>)
    ensures forall id | id in ids :: HoldsAttendee(values, id)
  {
    if records == [] then []
    else if HoldsAttendee(values, records[0].id) then [records[0].id] + SelectedIds(records[1..], values)
    else SelectedIds(records[1..], values)
  }

  lemma {:induction false} SelectedIdsOfItems(items: seq<PickerItem>, records: seq<Record>, values: FormValues)
    requires |items| == |records|
    requires forall i | 0 <= i < |items| :: items[i].item == records[i]
    ensures ExtractLabels(Filter(items, (x: PickerItem) => HoldsAttendee(values, x.item.id))) == SelectedIds(records, values)
  {
    var keep := (x: PickerItem) => HoldsAttendee(values, x.item.id);
    if items != [] {
      SelectedIdsOfItems(items[1..], records[1..], values);
      var rest := Filter(items[1..], keep);
      if keep(items[0]) {
        assert Filter(items, keep) == [items[0]] + rest;
        assert ExtractLabels([items[0]] + rest) == [items[0].item.id] + ExtractLabels(rest);
      }
    }
  }
}

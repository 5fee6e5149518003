/** The administrator's page of corporate inquiries, `src/pages/admin/AdminCorporateInquiries.tsx`:
    a table filtered by status, coloured status badges, request-type labels, and a detail
    dialog where the status and the internal notes are edited. */
module CorporateInquiries {
  import opened Common

  /** The columns of an inquiry the page's logic reads. */
  datatype Inquiry = Inquiry(id: string, companyName: string, requestType: string, status: string,
                             adminNotes: Option<string>)

  datatype StatusOption = StatusOption(value: string, caption: string, color: string)

  /** The status menu, in order. */
  const StatusOptions: seq<StatusOption> := [
    StatusOption("new", "New", "bg-blue-500/10 text-blue-600 border-blue-200"),
    StatusOption("contacted", "Contacted", "bg-yellow-500/10 text-yellow-600 border-yellow-200"),
    StatusOption("in_discussion", "In Discussion", "bg-purple-500/10 text-purple-600 border-purple-200"),
    StatusOption("quoted", "Quoted", "bg-orange-500/10 text-orange-600 border-orange-200"),
    StatusOption("confirmed", "Confirmed", "bg-green-500/10 text-green-600 border-green-200"),
    StatusOption("completed", "Completed", "bg-emerald-500/10 text-emerald-600 border-emerald-200"),
    StatusOption("declined", "Declined", "bg-red-500/10 text-red-600 border-red-200")
  ]

  /** The badge of a status not in the menu. */
  const MutedColor := "bg-muted text-muted-foreground"

  /** `options.find(o => o.value === status)`: the first option with that value. */
  function FindOption(options: seq<StatusOption>, status: string): (r: Option<StatusOption>)
    ensures r.None? <==> forall i :: 0 <= i < |options| ==> options[i].value != status
    ensures r.Some? ==> exists i :: 0 <= i < |options| && options[i] == r.value
                                     && forall j :: 0 <= j < i ==> options[j].value != status
    ensures r.Some? ==> r.value.value == status
  {
    if options == [] then None
    else if options[0].value == status then Some(options[0])
    else
      var rest := FindOption(options[1..], status);
      if rest.Some? then
        var i :| 0 <= i < |options[1..]| && options[1..][i] == rest.value
                  && forall j :: 0 <= j < i ==> options[1..][j].value != status;
        assert options[i + 1] == rest.value;
        rest
      else rest
  }

  /** `getStatusBadge`: the colour of the menu entry for the status, or the muted colour. */
  function StatusBadge(status: string): (c: string)
    ensures (forall i :: 0 <= i < |StatusOptions| ==> StatusOptions[i].value != status) ==> c == MutedColor
    ensures forall i :: 0 <= i < |StatusOptions| && StatusOptions[i].value == status ==>
      c == StatusOptions[i].color
  {
    var o := FindOption(StatusOptions, status);
    if o.Some? then
      MenuValuesDistinct();
      o.value.color
    else MutedColor
  }

  /** No two menu entries share a value, so the first match is the only one. */
  lemma MenuValuesDistinct()
    ensures forall i, j :: 0 <= i < j < |StatusOptions| ==> StatusOptions[i].value != StatusOptions[j].value
  {
  }

  /** `requestTypeLabels[t] || t`: the label of a known request type, else the raw type. */
  function RequestTypeLabel(requestType: string): (shown: string)
    ensures requestType !in {"gifting", "workshop", "collaboration"} ==> shown == requestType
    ensures requestType == "gifting" ==> shown == "Corporate Gifting"
    ensures requestType == "workshop" ==> shown == "Team Workshop"
    ensures requestType == "collaboration" ==> shown == "Brand Collaboration"
  {
    if requestType == "gifting" then "Corporate Gifting"
    else if requestType == "workshop" then "Team Workshop"
    else if requestType == "collaboration" then "Brand Collaboration"
    else requestType
  }

  /** The filter value that shows every inquiry. */
  const All := "all"

  function HasStatus(status: string): Inquiry -> bool
  {
    (inq: Inquiry) => inq.status == status
  }

  /** `filteredInquiries`: every inquiry for "all", else exactly those with the chosen
      status; a list not yet loaded stays absent. */
  function FilteredInquiries(inquiries: Option<seq<Inquiry>>, filter: string): (r: Option<seq<Inquiry>>)
    ensures r.None? <==> inquiries.None?
    ensures inquiries.Some? && filter == All ==> r == inquiries
    ensures inquiries.Some? && filter != All ==>
      && (forall inq :: inq in r.value <==> inq in inquiries.value && inq.status == filter)
      && |r.value| == Count(inquiries.value, HasStatus(filter))
  {
    if inquiries.None? then None
    else if filter == All then inquiries
    else
      CountIsFilterLength(inquiries.value, HasStatus(filter));
      Some(Filter(inquiries.value, HasStatus(filter)))
  }

  /** The filter keeps the table's order: filtering two runs of rows one after the other
      gives the two filtered runs one after the other. */
  lemma FilterKeepsOrder(s: seq<Inquiry>, t: seq<Inquiry>, filter: string)
    ensures FilteredInquiries(Some(s + t), filter).value ==
            FilteredInquiries(Some(s), filter).value + FilteredInquiries(Some(t), filter).value
  {
    if filter != All {
      FilterAppend(s, t, HasStatus(filter));
    }
  }

  /** Filtering by a status twice is filtering once. */
  lemma FilterTwice(s: seq<Inquiry>, filter: string)
    ensures FilteredInquiries(FilteredInquiries(Some(s), filter), filter) == FilteredInquiries(Some(s), filter)
  {
    if filter != All {
      FilterIdempotent(s, HasStatus(filter));
    }
  }

  /** The row updates the dialog issues. */
  datatype Update = StatusUpdate(id: string, status: string) | NotesUpdate(id: string, notes: string)

  class CorporateInquiriesPage {
    var selectedInquiry: Option<Inquiry>
    var adminNotes: string
    var filterStatus: string

    constructor()
      ensures selectedInquiry == None && adminNotes == [] && filterStatus == All
    {
      selectedInquiry := None;
      adminNotes := "";
      filterStatus := All;
    }

    method SetFilter(value: string)
      modifies this`filterStatus
      ensures filterStatus == value
    {
      filterStatus := value;
    }

    /** `openDetail`: the dialog shows the inquiry, its null notes as empty text. */
    method OpenDetail(inq: Inquiry)
      modifies this`selectedInquiry, this`adminNotes
      ensures selectedInquiry == Some(inq)
      ensures adminNotes == OrEmpty(inq.adminNotes)
    {
      selectedInquiry := Some(inq);
      adminNotes := OrEmpty(inq.adminNotes);
    }

    /** Closing the dialog. */
    method CloseDetail()
      modifies this`selectedInquiry
      ensures selectedInquiry == None
    {
      selectedInquiry := None;
    }

    /** The dialog's status menu, shown only while an inquiry is open: the update is issued
        and the open inquiry takes the new status, every other field unchanged. */
    method ChangeStatus(value: string) returns (update: Update)
      requires selectedInquiry.Some?
      modifies this`selectedInquiry
      ensures update == StatusUpdate(old(selectedInquiry).value.id, value)
      ensures selectedInquiry == Some(old(selectedInquiry).value.(status := value))
    {
      update := StatusUpdate(selectedInquiry.value.id, value);
      selectedInquiry := Some(selectedInquiry.value.(status := value));
    }

    /** "Save Notes": the notes as typed, empty text included, for the open inquiry. */
    method SaveNotes() returns (update: Update)
      requires selectedInquiry.Some?
      ensures update == NotesUpdate(selectedInquiry.value.id, adminNotes)
    {
      update := NotesUpdate(selectedInquiry.value.id, adminNotes);
    }

    /** The delete mutation: a success closes the dialog, a failure leaves it open. */
    method DeleteInquiry(ok: bool)
      modifies this`selectedInquiry
      ensures selectedInquiry == (if ok then None else old(selectedInquiry))
    {
      if ok {
        selectedInquiry := None;
      }
    }
  }
}

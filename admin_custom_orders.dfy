/** The administrator's page of custom order requests, `src/pages/admin/AdminCustomOrders.tsx`:
    the summary counts, the detail dialog with its edit fields, deletion of a reference
    image, and the panel that asks the `send-custom-order-email` function for a mail. */
module AdminCustomOrders {
  import opened Common
  import OrderEmail

  /** The columns of a request the page works with. */
  datatype Request = Request(id: string, email: string, status: string,
                             adminNotes: Option<string>, estimatedPrice: Option<real>,
                             estimatedDeliveryDate: Option<string>,
                             referenceImages: Option<seq<string>>,
                             emailsSent: Option<seq<OrderEmail.SentEmail>>)

  /** The mail templates the panel offers, in order. */
  const Templates: seq<string> := [OrderEmail.PaymentRequest, OrderEmail.PaymentConfirmed,
                                   OrderEmail.InDelivery, OrderEmail.Delivered, OrderEmail.Custom]

  /** Every template the panel offers is one the function has a subject line for. */
  lemma TemplatesKnown()
    ensures forall i :: 0 <= i < |Templates| ==> OrderEmail.Subject(Templates[i]) != []
  {
    forall i | 0 <= i < |Templates|
      ensures OrderEmail.Subject(Templates[i]) != []
    {
      assert Templates[i] in {OrderEmail.PaymentRequest, OrderEmail.PaymentConfirmed,
                              OrderEmail.InDelivery, OrderEmail.Delivered, OrderEmail.Custom};
    }
  }

  // ---------------------------------------------------------------- summary counts

  predicate IsPending(r: Request) { r.status == "pending" || r.status == "under_review" }
  predicate IsInProgress(r: Request) { r.status == "in_progress" || r.status == "payment_done" }
  predicate IsDelivered(r: Request) { r.status == "delivered" }
  predicate IsPendingOrInProgress(r: Request) { IsPending(r) || IsInProgress(r) }
  predicate IsCounted(r: Request) { IsPendingOrInProgress(r) || IsDelivered(r) }

  datatype Stats = Stats(total: nat, pending: nat, inProgress: nat, delivered: nat)

  /** The four cards above the table; a list not yet loaded counts as empty. */
  function StatsFor(requests: Option<seq<Request>>): (st: Stats)
    ensures requests.None? ==> st == Stats(0, 0, 0, 0)
    ensures st.pending <= st.total && st.inProgress <= st.total && st.delivered <= st.total
  {
    var rows := if requests.Some? then requests.value else [];
    Stats(|rows|, Count(rows, IsPending), Count(rows, IsInProgress), Count(rows, IsDelivered))
  }

  /** The three groups never overlap, so together they count no more than the total. */
  lemma StatsWithinTotal(requests: Option<seq<Request>>)
    ensures var st := StatsFor(requests);
      st.pending + st.inProgress + st.delivered <= st.total
  {
    var rows := if requests.Some? then requests.value else [];
    CountDisjoint(rows, IsPending, IsInProgress, IsPendingOrInProgress);
    CountDisjoint(rows, IsPendingOrInProgress, IsDelivered, IsCounted);
  }

  // ---------------------------------------------------------------- image deletion

  /** The folder of the storage bucket, as it appears in an image's public URL. */
  const Marker := "/custom-order-images/"

  /** `m` occurs in `s` at position `i`. */
  predicate Occurs(s: string, m: string, i: nat)
  {
    i + |m| <= |s| && s[i..i + |m|] == m
  }

  /** The first occurrence of `m` in `s` at or after `from`. */
  function IndexFrom(s: string, m: string, from: nat): (r: Option<nat>)
    requires m != []
    ensures r.Some? ==> from <= r.value && Occurs(s, m, r.value)
    ensures r.Some? ==> forall k :: from <= k < r.value ==> !Occurs(s, m, k)
    ensures r.None? ==> forall k :: from <= k ==> !Occurs(s, m, k)
    decreases |s| - from
  {
    if from + |m| > |s| then None
    else if s[from..from + |m|] == m then Some(from)
    else IndexFrom(s, m, from + 1)
  }

  /** `imageUrl.split(Marker)[1]`: the text after the first occurrence of the marker, up to
      the next one; None when the marker does not occur (the split has one part). */
  function ImagePath(url: string): (r: Option<string>)
    ensures r.None? <==> forall k :: 0 <= k ==> !Occurs(url, Marker, k)
  {
    match IndexFrom(url, Marker, 0)
    case None => None
    case Some(i) =>
      var start := i + |Marker|;
      match IndexFrom(url, Marker, start)
      case None => Some(url[start..])
      case Some(j) => Some(url[start..j])
  }

  /** Where `m` first occurs in `prefix + m + path` when it does not occur earlier. */
  lemma FirstOccurrence(prefix: string, m: string, path: string)
    requires m != []
    requires forall k :: 0 <= k < |prefix| ==> !Occurs(prefix + m, m, k)
    ensures IndexFrom(prefix + m + path, m, 0) == Some(|prefix|)
  {
    var url := prefix + m + path;
    var start := |prefix| + |m|;
    assert url[|prefix|..start] == m;
    assert Occurs(url, m, |prefix|);
    assert url[..start] == prefix + m;
    forall k | 0 <= k < |prefix|
      ensures !Occurs(url, m, k)
    {
      assert !Occurs(prefix + m, m, k);
      assert url[k..k + |m|] == url[..start][k..k + |m|];
    }
  }

  /** `m` does not occur again after its occurrence in `prefix + m + path` when it does
      not occur in `m + path` past the start. */
  lemma NoLaterOccurrence(prefix: string, m: string, path: string)
    requires m != []
    requires forall k :: 0 < k ==> !Occurs(m + path, m, k)
    ensures IndexFrom(prefix + m + path, m, |prefix| + |m|) == None
  {
    var url := prefix + m + path;
    assert url[|prefix|..] == m + path;
    forall k | |prefix| + |m| <= k
      ensures !Occurs(url, m, k)
    {
      if Occurs(url, m, k) {
        var k' := k - |prefix|;
        assert (m + path)[k'..k' + |m|] == url[k..k + |m|];
        assert Occurs(m + path, m, k');
      }
    }
  }

  /** A public URL built as a prefix, the marker and a storage path gives that path back,
      as long as the marker does not occur elsewhere (overlaps included). */
  lemma ImagePathOfUrl(prefix: string, path: string)
    requires forall k :: 0 <= k < |prefix| ==> !Occurs(prefix + Marker, Marker, k)
    requires forall k :: 0 < k ==> !Occurs(Marker + path, Marker, k)
    ensures ImagePath(prefix + Marker + path) == Some(path)
  {
    var url := prefix + Marker + path;
    FirstOccurrence(prefix, Marker, path);
    NoLaterOccurrence(prefix, Marker, path);
    assert url[|prefix| + |Marker|..] == path;
  }

  /** How `deleteImageMutation` ends, with the storage path removed and the list written
      back where those calls were made. */
  datatype DeleteResult =
    | InvalidUrl
    | StorageFailed(path: string)
    | DbFailed(path: string, images: seq<string>)
    | Deleted(path: string, images: seq<string>)

  function KeepOther(url: string): string -> bool
  {
    (img: string) => img != url
  }

  /** `images.filter(img => img !== imageUrl)`: the list written back after the storage
      removal, with every copy of the URL gone. */
  function KeptImages(allImages: seq<string>, url: string): (r: seq<string>)
    ensures url !in r
    ensures forall img :: img in r <==> img in allImages && img != url
    ensures |r| == |allImages| - Count(allImages, (img: string) => img == url)
  {
    FilterCountsRest(allImages, url);
    Filter(allImages, KeepOther(url))
  }

  /** The filter works image by image: on a concatenation it filters each part, and a
      single image stays exactly when it is not the URL. Together these fix the result, so
      the kept images stay in their original order. */
  lemma KeptImagesInOrder(s: seq<string>, t: seq<string>, img: string, url: string)
    ensures KeptImages(s + t, url) == KeptImages(s, url) + KeptImages(t, url)
    ensures KeptImages([img], url) == if img == url then [] else [img]
  {
    FilterAppend(s, t, KeepOther(url));
    assert [img][1..] == [];
  }

  /** The mutation: a URL without the marker fails before any call; a failed storage
      removal stops before the row update; otherwise every copy of the URL leaves the list. */
  function ImageDeletion(imageUrl: string, allImages: seq<string>, storageOk: bool, dbOk: bool): (r: DeleteResult)
    ensures r.InvalidUrl? <==> ImagePath(imageUrl).None?
    ensures !r.InvalidUrl? ==> r.path == ImagePath(imageUrl).value
    ensures r.StorageFailed? <==> ImagePath(imageUrl).Some? && !storageOk
    ensures r.Deleted? <==> ImagePath(imageUrl).Some? && storageOk && dbOk
    ensures r.DbFailed? || r.Deleted? ==>
      && imageUrl !in r.images
      && (forall img :: img in r.images <==> img in allImages && img != imageUrl)
      && |r.images| == |allImages| - Count(allImages, (img: string) => img == imageUrl)
    ensures r.DbFailed? || r.Deleted? ==> r.images == KeptImages(allImages, imageUrl)
  {
    match ImagePath(imageUrl)
    case None => InvalidUrl
    case Some(path) =>
      if !storageOk then StorageFailed(path)
      else
        var updated := KeptImages(allImages, imageUrl);
        if dbOk then Deleted(path, updated) else DbFailed(path, updated)
  }

  /** Filtering a URL out drops exactly its copies. */
  lemma {:induction false} FilterCountsRest(s: seq<string>, url: string)
    ensures |Filter(s, KeepOther(url))| == |s| - Count(s, (img: string) => img == url)
  {
    if s != [] {
      FilterCountsRest(s[1..], url);
    }
  }

  // ---------------------------------------------------------------- already sent

  /** The "Sent" badge of a template: the request's log has an entry of that type. */
  predicate AlreadySent(log: Option<seq<OrderEmail.SentEmail>>, template: string)
  {
    log.Some? && exists i :: 0 <= i < |log.value| && log.value[i].emailType == template
  }

  /** After the function has sent a template its badge shows, and no badge shown before
      disappears. */
  lemma SentAfterSend(log: Option<seq<OrderEmail.SentEmail>>, template: string, now: string, other: string)
    ensures AlreadySent(Some(OrderEmail.AppendSent(log, template, now)), template)
    ensures AlreadySent(log, other) ==> AlreadySent(Some(OrderEmail.AppendSent(log, template, now)), other)
  {
    var r := OrderEmail.AppendSent(log, template, now);
    assert r[|r| - 1].emailType == template;
    if AlreadySent(log, other) {
      var i :| 0 <= i < |log.value| && log.value[i].emailType == other;
      assert r[i] == log.value[i];
    }
  }

  // ---------------------------------------------------------------- mail request

  /** The body posted to the function. */
  datatype EmailPayload = EmailPayload(customOrderId: string, emailType: string, customMessage: Option<string>)

  datatype SendOutcome =
    | Skipped
    | Refused(message: string)
    | Sent(payload: EmailPayload)
    | SendFailed(payload: EmailPayload, message: string)

  /** The checks `sendEmail` makes before it posts, and the body it would post. */
  function PrepareEmail(selected: Option<Request>, emailType: string, customMessage: string): (r: SendOutcome)
    ensures r.SendFailed? == false
    ensures r.Skipped? <==> selected.None? || emailType == []
    ensures r.Refused? <==> (selected.Some? && emailType != [] &&
      ((emailType == OrderEmail.PaymentRequest && !OrderEmail.PriceGiven(selected.value.estimatedPrice))
       || (emailType == OrderEmail.Custom && Trim(customMessage) == [])))
    ensures r.Sent? ==> r.payload.customOrderId == selected.value.id && r.payload.emailType == emailType
    ensures r.Sent? ==> (r.payload.customMessage.Some? <==> emailType == OrderEmail.Custom)
    ensures r.Sent? && emailType == OrderEmail.Custom ==> r.payload.customMessage == Some(customMessage)
  {
    if selected.None? || emailType == [] then Skipped
    else if emailType == OrderEmail.PaymentRequest && !OrderEmail.PriceGiven(selected.value.estimatedPrice) then
      Refused("Please set an estimated price before sending payment request")
    else if emailType == OrderEmail.Custom && Trim(customMessage) == [] then
      Refused("Please enter a custom message")
    else
      Sent(EmailPayload(selected.value.id, emailType,
                        if emailType == OrderEmail.Custom then Some(customMessage) else None))
  }

  /** The order the function loads for a request. */
  function OrderOf(r: Request): OrderEmail.Order
  {
    OrderEmail.Order(r.id, r.email, r.status, r.estimatedPrice, r.emailsSent)
  }

  /** A body the page posts never fails the function's own template checks on the same
      row: the page's checks are at least as strict. */
  lemma PageChecksCoverFunction(selected: Option<Request>, emailType: string, customMessage: string)
    requires PrepareEmail(selected, emailType, customMessage).Sent?
    ensures var p := PrepareEmail(selected, emailType, customMessage).payload;
      OrderEmail.TemplateError(p.emailType, OrderOf(selected.value), p.customMessage).None?
  {
  }

  // ---------------------------------------------------------------- the dialog

  /** The dialog's edit fields. The price field stands for its text: None for the empty
      field, else the number it holds. */
  datatype EditData = EditData(status: string, adminNotes: string, estimatedPrice: Option<real>,
                               estimatedDeliveryDate: string)

  /** The row update `handleUpdate` issues. */
  datatype RequestUpdate = RequestUpdate(id: string, status: string, adminNotes: Option<string>,
                                         estimatedPrice: Option<real>, estimatedDeliveryDate: Option<string>)

  /** `openDetail`'s fields: nulls shown as empty text. */
  function EditFor(r: Request): (e: EditData)
    ensures e.status == r.status && e.estimatedPrice == r.estimatedPrice
    ensures e.adminNotes == [] <==> !Truthy(r.adminNotes)
    ensures e.estimatedDeliveryDate == [] <==> !Truthy(r.estimatedDeliveryDate)
  {
    EditData(r.status, OrEmpty(r.adminNotes), r.estimatedPrice, OrEmpty(r.estimatedDeliveryDate))
  }

  /** `handleUpdate`'s row: empty text saved as null. */
  function UpdateFrom(id: string, e: EditData): (u: RequestUpdate)
    ensures u.id == id && u.status == e.status && u.estimatedPrice == e.estimatedPrice
    ensures u.adminNotes.None? <==> e.adminNotes == []
    ensures u.estimatedDeliveryDate.None? <==> e.estimatedDeliveryDate == []
  {
    RequestUpdate(id, e.status, NullIfEmpty(e.adminNotes), e.estimatedPrice, NullIfEmpty(e.estimatedDeliveryDate))
  }

  /** Opening a request and saving it unedited writes its own values back, except that an
      empty stored text comes back as null. */
  lemma SaveUneditedKeeps(r: Request)
    ensures UpdateFrom(r.id, EditFor(r)) ==
      RequestUpdate(r.id, r.status,
                    if r.adminNotes == Some("") then None else r.adminNotes,
                    r.estimatedPrice,
                    if r.estimatedDeliveryDate == Some("") then None else r.estimatedDeliveryDate)
  {
    NullableTextRoundTrip(r.adminNotes, "");
    NullableTextRoundTrip(r.estimatedDeliveryDate, "");
  }

  /** The page's own state. */
  class AdminCustomOrdersPage {
    var selectedRequest: Option<Request>
    var isDetailOpen: bool
    var editData: EditData
    var emailType: string
    var customMessage: string
    var isSendingEmail: bool

    constructor()
      ensures selectedRequest == None && !isDetailOpen && !isSendingEmail
      ensures editData == EditData("", "", None, "") && emailType == [] && customMessage == []
    {
      selectedRequest := None;
      isDetailOpen := false;
      editData := EditData("", "", None, "");
      emailType := "";
      customMessage := "";
      isSendingEmail := false;
    }

    /** `openDetail`: select the request, fill the fields, clear the mail panel. */
    method OpenDetail(r: Request)
      modifies this`selectedRequest, this`editData, this`emailType, this`customMessage, this`isDetailOpen
      ensures selectedRequest == Some(r) && editData == EditFor(r)
      ensures emailType == [] && customMessage == [] && isDetailOpen
    {
      selectedRequest := Some(r);
      editData := EditFor(r);
      emailType := "";
      customMessage := "";
      isDetailOpen := true;
    }

    /** `handleUpdate`: without a selection nothing happens; otherwise the update is issued
        and the dialog closes. */
    method HandleUpdate() returns (update: Option<RequestUpdate>)
      modifies this`isDetailOpen
      ensures selectedRequest.None? ==> update.None? && isDetailOpen == old(isDetailOpen)
      ensures selectedRequest.Some? ==>
        update == Some(UpdateFrom(selectedRequest.value.id, editData)) && !isDetailOpen
    {
      if selectedRequest.None? {
        return None;
      }
      update := Some(UpdateFrom(selectedRequest.value.id, editData));
      isDetailOpen := false;
    }

    /** `deleteImageMutation` and its success handler: the open request shows the new list
        when it is the one changed. */
    method DeleteImage(requestId: string, imageUrl: string, allImages: seq<string>,
                       storageOk: bool, dbOk: bool) returns (result: DeleteResult)
      modifies this`selectedRequest
      ensures result == ImageDeletion(imageUrl, allImages, storageOk, dbOk)
      ensures result.Deleted? && old(selectedRequest).Some? && old(selectedRequest).value.id == requestId ==>
        selectedRequest == Some(old(selectedRequest).value.(referenceImages := Some(result.images)))
      ensures !(result.Deleted? && old(selectedRequest).Some? && old(selectedRequest).value.id == requestId) ==>
        selectedRequest == old(selectedRequest)
    {
      result := ImageDeletion(imageUrl, allImages, storageOk, dbOk);
      if result.Deleted? && selectedRequest.Some? && selectedRequest.value.id == requestId {
        selectedRequest := Some(selectedRequest.value.(referenceImages := Some(result.images)));
      }
    }

    /** `sendEmail`: the checks, then the post. `responseOk` and `responseError` stand for
        the function's reply; a success clears the panel. */
    method SendEmail(responseOk: bool, responseError: Option<string>) returns (outcome: SendOutcome)
      modifies this`emailType, this`customMessage, this`isSendingEmail
      ensures var prepared := PrepareEmail(selectedRequest, old(emailType), old(customMessage));
        && (!prepared.Sent? ==>
              && outcome == prepared && emailType == old(emailType)
              && customMessage == old(customMessage) && isSendingEmail == old(isSendingEmail))
        && (prepared.Sent? && responseOk ==> outcome == prepared && emailType == [] && customMessage == [])
        && (prepared.Sent? && !responseOk ==>
              outcome == SendFailed(prepared.payload, if Truthy(responseError) then responseError.value else "Failed to send email")
              && emailType == old(emailType) && customMessage == old(customMessage))
        && (prepared.Sent? ==> !isSendingEmail)
    {
      outcome := PrepareEmail(selectedRequest, emailType, customMessage);
      if !outcome.Sent? {
        return;
      }
      isSendingEmail := true;
      if responseOk {
        emailType := "";
        customMessage := "";
      } else {
        outcome := SendFailed(outcome.payload, if Truthy(responseError) then responseError.value else "Failed to send email");
      }
      isSendingEmail := false;
    }
  }
}

/** The `send-custom-order-email` edge function
    (`supabase/functions/send-custom-order-email/index.ts`): an administrator asks for one
    of five templated e-mails about a custom order; the function checks the caller, loads
    the order, validates the template's inputs, sends the mail and then advances the
    order's status and appends to its log of sent e-mails. */
module OrderEmail {
  import opened Common

  const PaymentRequest := "payment_request"
  const PaymentConfirmed := "payment_confirmed"
  const InDelivery := "in_delivery"
  const Delivered := "delivered"
  const Custom := "custom"

  /** One entry of an order's `emails_sent` log. */
  datatype SentEmail = SentEmail(emailType: string, sentAt: string)

  /** The columns of a custom order the function reads. */
  datatype Order = Order(id: string, email: string, status: string,
                         estimatedPrice: Option<real>, emailsSent: Option<seq<SentEmail>>)

  /** The JSON body of the request. */
  datatype EmailRequest = EmailRequest(customOrderId: string, emailType: string, customMessage: Option<string>)

  /** What the environment and the remote services answer; each stands for one awaited
      call of the handler. */
  datatype Services = Services(
    authHeader: Option<string>,
    /** `auth.getUser()`: the user id, or None for an error or no user. */
    authUser: Option<string>,
    /** The `has_role` RPC's data (an error reads as not admin). */
    isAdmin: bool,
    /** `req.json()`: the body, or the message of the exception it raised. */
    body: Result<EmailRequest>,
    /** The order lookup, None for an error or no row. */
    order: Option<Order>,
    gmailUser: Option<string>,
    gmailPassword: Option<string>,
    /** The SMTP send: None on success, else the error's message. */
    smtpError: Option<string>,
    /** The timestamp written as `sent_at`. */
    now: string)

  datatype Result<T> = Ok(value: T) | Failed(message: string)

  /** The mail handed to the SMTP client. */
  datatype Mail = Mail(to: string, subject: string)

  /** The order row update: the new status and the whole new log. */
  datatype OrderUpdate = OrderUpdate(orderId: string, status: string, emailsSent: seq<SentEmail>)

  datatype Body = Preflight | Error(message: string) | Success

  /** The response, with the mail sent and the update issued on the way to it. */
  datatype Reply = Reply(status: int, body: Body, mail: Option<Mail>, update: Option<OrderUpdate>)

  /** JavaScript's truthiness of a number column: null and 0 are falsy. */
  predicate PriceGiven(p: Option<real>)
  {
    p.Some? && p.value != 0.0
  }

  /** The template's own validation: a payment request needs a price, a custom message
      needs text. */
  function TemplateError(emailType: string, order: Order, customMessage: Option<string>): (e: Option<string>)
    ensures e.Some? <==> (emailType == PaymentRequest && !PriceGiven(order.estimatedPrice))
                         || (emailType == Custom && !Truthy(customMessage))
  {
    if emailType == PaymentRequest && !PriceGiven(order.estimatedPrice) then
      Some("Estimated price is required for payment request")
    else if emailType == Custom && !Truthy(customMessage) then
      Some("Custom message is required")
    else None
  }

  /** The subject line of each template; an unknown type keeps the empty subject. */
  function Subject(emailType: string): (s: string)
    ensures s == [] <==> emailType !in {PaymentRequest, PaymentConfirmed, InDelivery, Delivered, Custom}
  {
    if emailType == PaymentRequest then "Payment Request for Your Custom Order - Basho By Shivangi"
    else if emailType == PaymentConfirmed then "Payment Confirmed - Your Custom Order is in Production! - Basho By Shivangi"
    else if emailType == InDelivery then "Your Custom Order is On Its Way! - Basho By Shivangi"
    else if emailType == Delivered then "Your Custom Order Has Been Delivered! - Basho By Shivangi"
    else if emailType == Custom then "Update on Your Custom Order - Basho By Shivangi"
    else ""
  }

  /** The status an order takes after its mail went out. The current status is not
      consulted, except as the value kept by the custom and unknown types. */
  function NextStatus(emailType: string, current: string): (s: string)
    ensures emailType == PaymentRequest ==> s == "payment_pending"
    ensures emailType == PaymentConfirmed ==> s == "in_progress"
    ensures emailType == InDelivery ==> s == "in_delivery"
    ensures emailType == Delivered ==> s == "delivered"
    ensures emailType !in {PaymentRequest, PaymentConfirmed, InDelivery, Delivered} ==> s == current
  {
    if emailType == PaymentRequest then "payment_pending"
    else if emailType == PaymentConfirmed then "in_progress"
    else if emailType == InDelivery then "in_delivery"
    else if emailType == Delivered then "delivered"
    else current
  }

  /** The status does not only move forward: a payment request on a delivered order sends
      it back to "payment_pending". */
  lemma StatusCanMoveBackward()
    ensures NextStatus(PaymentRequest, "delivered") == "payment_pending"
    ensures forall c1, c2 :: NextStatus(PaymentRequest, c1) == NextStatus(PaymentRequest, c2)
  {
  }

  /** The new log: the old one (or the empty log for null) with one entry appended. */
  function AppendSent(log: Option<seq<SentEmail>>, emailType: string, now: string): (r: seq<SentEmail>)
    ensures |r| == (if log.Some? then |log.value| else 0) + 1
    ensures r[|r| - 1] == SentEmail(emailType, now)
    ensures log.Some? ==> r[..|r| - 1] == log.value
  {
    (if log.Some? then log.value else []) + [SentEmail(emailType, now)]
  }

  /** The caller passes the three access checks. */
  predicate Authorised(sv: Services)
  {
    Truthy(sv.authHeader) && sv.authUser.Some? && sv.isAdmin
  }

  /** Every check before the send passes. */
  predicate ReadyToSend(sv: Services)
  {
    && Authorised(sv) && sv.body.Ok? && sv.order.Some?
    && TemplateError(sv.body.value.emailType, sv.order.value, sv.body.value.customMessage).None?
    && Truthy(sv.gmailUser) && Truthy(sv.gmailPassword)
  }

  /** The last steps of the handler, once every check passed: the mail is sent and, when
      the SMTP client accepted it, the order's status and log are updated. */
  method SendAndRecord(req: EmailRequest, order: Order, sv: Services) returns (r: Reply)
    ensures r.mail == Some(Mail(order.email, Subject(req.emailType)))
    ensures sv.smtpError.Some? ==>
      r == Reply(500, Error("Failed to send email: " + sv.smtpError.value), r.mail, None)
    ensures sv.smtpError.None? ==>
      r == Reply(200, Success, r.mail,
                 Some(OrderUpdate(req.customOrderId, NextStatus(req.emailType, order.status),
                                  AppendSent(order.emailsSent, req.emailType, sv.now))))
  {
    var mail := Mail(order.email, Subject(req.emailType));
    if sv.smtpError.Some? {
      return Reply(500, Error("Failed to send email: " + sv.smtpError.value), Some(mail), None);
    }
    var newStatus := order.status;
    if req.emailType == PaymentRequest {
      newStatus := "payment_pending";
    } else if req.emailType == PaymentConfirmed {
      newStatus := "in_progress";
    } else if req.emailType == InDelivery {
      newStatus := "in_delivery";
    } else if req.emailType == Delivered {
      newStatus := "delivered";
    }
    var emailsSent := if order.emailsSent.Some? then order.emailsSent.value else [];
    emailsSent := emailsSent + [SentEmail(req.emailType, sv.now)];
    // A failed update is only logged: the mail went out, so the reply is a success.
    r := Reply(200, Success, Some(mail), Some(OrderUpdate(req.customOrderId, newStatus, emailsSent)));
  }

  /** The handler, step by step, with an early reply for each failed check. */
  method Handle(httpMethod: string, sv: Services) returns (r: Reply)
    ensures httpMethod == "OPTIONS" ==> r == Reply(200, Preflight, None, None)
    ensures httpMethod != "OPTIONS" ==>
      && (!Truthy(sv.authHeader) ==> r == Reply(401, Error("Unauthorized"), None, None))
      && (Truthy(sv.authHeader) && sv.authUser.None? ==> r == Reply(401, Error("Unauthorized"), None, None))
      && (Truthy(sv.authHeader) && sv.authUser.Some? && !sv.isAdmin ==>
            r == Reply(403, Error("Forbidden - Admin access required"), None, None))
      && (Authorised(sv) && sv.body.Failed? ==> r == Reply(500, Error(sv.body.message), None, None))
      && (Authorised(sv) && sv.body.Ok? && sv.order.None? ==>
            r == Reply(404, Error("Custom order not found"), None, None))
      && (Authorised(sv) && sv.body.Ok? && sv.order.Some? ==>
            var req := sv.body.value;
            var e := TemplateError(req.emailType, sv.order.value, req.customMessage);
            && (e.Some? ==> r == Reply(400, Error(e.value), None, None))
            && (e.None? && !(Truthy(sv.gmailUser) && Truthy(sv.gmailPassword)) ==>
                  r.status == 500 && r.mail.None? && r.update.None?))
    ensures httpMethod != "OPTIONS" && ReadyToSend(sv) ==>
      var req := sv.body.value;
      var order := sv.order.value;
      && r.mail == Some(Mail(order.email, Subject(req.emailType)))
      && (sv.smtpError.Some? ==>
            r == Reply(500, Error("Failed to send email: " + sv.smtpError.value), r.mail, None))
      && (sv.smtpError.None? ==>
            r == Reply(200, Success, r.mail,
                       Some(OrderUpdate(req.customOrderId, NextStatus(req.emailType, order.status),
                                        AppendSent(order.emailsSent, req.emailType, sv.now)))))
    ensures r.update.Some? ==> r.mail.Some? && r.status == 200
    ensures r.status == 200 && r.body != Preflight ==> r.update.Some?
  {
    if httpMethod == "OPTIONS" {
      return Reply(200, Preflight, None, None);
    }
    if !Truthy(sv.authHeader) {
      return Reply(401, Error("Unauthorized"), None, None);
    }
    if sv.authUser.None? {
      return Reply(401, Error("Unauthorized"), None, None);
    }
    if !sv.isAdmin {
      return Reply(403, Error("Forbidden - Admin access required"), None, None);
    }
    if sv.body.Failed? {
      return Reply(500, Error(sv.body.message), None, None);
    }
    var req := sv.body.value;
    if sv.order.None? {
      return Reply(404, Error("Custom order not found"), None, None);
    }
    var order := sv.order.value;
    var invalid := TemplateError(req.emailType, order, req.customMessage);
    if invalid.Some? {
      return Reply(400, Error(invalid.value), None, None);
    }
    if !Truthy(sv.gmailUser) || !Truthy(sv.gmailPassword) {
      return Reply(500, Error("Email service not configured. Please set GMAIL_USER and GMAIL_APP_PASSWORD."), None, None);
    }
    r := SendAndRecord(req, order, sv);
  }
}

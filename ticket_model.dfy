/**
  * The `Ticket` collection. The schema declares `status` with the values
  * active, cancelled and scanned (default active), `isScanned` defaulting to
  * false, an optional `scannedAt`, and required references and tier fields.
  * The status type below adds `Pending` because the payment-verification
  * handler branches on it; no operation of the model creates it, and the
  * schema's enum validator rejects it on creation.
  *
  * The schema has no `amount` or `paymentId` path. Mongoose's strict mode
  * drops undeclared paths, so a draft may carry them but a stored ticket never does.
  */
module TicketModel {
  import opened Common
  import opened ObjectIds

  datatype Status = Pending | Active | Cancelled | Scanned

  datatype Ticket = Ticket(
    eventId: ObjectId,
    userId: ObjectId,
    clerkUserId: string,
    purchaseDate: int,
    status: Status,
    isScanned: bool,
    scannedAt: Option<int>,
    tierId: string,
    tierName: string)

  /** Where a handler takes a ticket's price from: the metadata's `tierPrice`
      text, or the session's total (in cents). */
  datatype AmountSource = FromTierPrice(text: string) | FromSessionTotal(cents: int)

  /** The object passed to `Ticket.create`: every field may be missing. */
  datatype TicketDraft = TicketDraft(
    eventId: Option<string>,
    userId: Option<string>,
    clerkUserId: Option<string>,
    tierId: Option<string>,
    tierName: Option<string>,
    status: Option<Status>,
    amount: Option<AmountSource>,
    paymentId: Option<string>)

  datatype TicketError = TicketFieldMissing | StatusNotInEnum

  predicate HasRequiredFields(d: TicketDraft) {
    Truthy(d.eventId) && Truthy(d.userId) && Truthy(d.clerkUserId) && Truthy(d.tierId) && Truthy(d.tierName)
  }

  /** `Ticket.create(draft)`: required fields, the status enum, then the defaults. */
  function NewTicket(d: TicketDraft, now: int): (r: Result<Ticket, TicketError>)
    ensures r.Ok? <==> HasRequiredFields(d) && d.status != Some(Pending)
    ensures r.Ok? ==> r.value.status == (if d.status.Some? then d.status.value else Active)
    ensures r.Ok? ==> !r.value.isScanned && r.value.scannedAt.None? && r.value.purchaseDate == now
    ensures r.Ok? ==> && r.value.eventId == d.eventId.value && r.value.userId == d.userId.value
                      && r.value.clerkUserId == d.clerkUserId.value
                      && r.value.tierId == d.tierId.value && r.value.tierName == d.tierName.value
  {
    if !HasRequiredFields(d) then Err(TicketFieldMissing)
    else if d.status == Some(Pending) then Err(StatusNotInEnum)
    else
      Ok(Ticket(d.eventId.value, d.userId.value, d.clerkUserId.value, now,
                if d.status.Some? then d.status.value else Active,
                false, None, d.tierId.value, d.tierName.value))
  }

  /** The scan fields agree: `isScanned` exactly when the status is scanned,
      and `scannedAt` is set exactly when `isScanned` is. */
  predicate ScanConsistent(t: Ticket) {
    (t.isScanned <==> t.status == Scanned) && (t.scannedAt.Some? <==> t.isScanned)
  }

  /** The required references and tier fields are all non-empty. */
  predicate TicketComplete(t: Ticket) {
    t.eventId != "" && t.userId != "" && t.clerkUserId != "" && t.tierId != "" && t.tierName != ""
  }

  /** What every stored ticket satisfies: it passed the required checks when it
      was created, and its scan fields agree. A later `save` of such a ticket
      with an enum status therefore passes validation. */
  predicate StoredTicket(t: Ticket) {
    TicketComplete(t) && ScanConsistent(t)
  }

  /** A created ticket is complete and unscanned, so it may be stored unless
      the draft itself asked for the scanned status (no handler does). */
  lemma NewTicketStorable(d: TicketDraft, now: int)
    requires NewTicket(d, now).Ok?
    ensures StoredTicket(NewTicket(d, now).value) <==> d.status != Some(Scanned)
  {
  }

  /** Strict mode: the undeclared `amount` and `paymentId` never reach the stored ticket. */
  lemma StrictSchemaDropsPaymentFields(d: TicketDraft, amount: Option<AmountSource>, paymentId: Option<string>, now: int)
    ensures NewTicket(d.(amount := amount, paymentId := paymentId), now) == NewTicket(d, now)
  {
  }
}

/**
  * The server actions taken together: any sequence of requests, in any
  * order, starting from a store that satisfies the invariant. Every request
  * keeps the invariant; a ticket never changes hands or tier, a scanned or
  * cancelled ticket is never changed again, nothing ever becomes pending, and
  * every new ticket gets an id minted after the ones already in use. The
  * webhook and the payment-verification fallback do not know of each other,
  * so one paid Checkout session handled by both gives two tickets.
  */
module Scenarios {
  import opened Common
  import opened ObjectIds
  import opened EventModel
  import opened TicketModel
  import opened DataStore
  import UserActions
  import TicketActions
  import Webhook
  import VerifyPayment
  import Scan
  import EventActions

  /** One call of a server action or route handler, with the data it is given. */
  datatype Request =
    | SyncUserRequest(caller: Option<ClerkUser>)
    | RegisterRequest(caller: Option<ClerkUser>, eventId: ObjectId, tierId: string, tierName: string,
                      priceCents: int, appUrl: Option<string>, isDevelopment: bool, checkoutUrl: Option<string>)
    | WebhookRequest(signatureValid: bool, event: Webhook.StripeEvent, storeFault: bool)
    | VerifyPaymentRequest(caller: Option<ClerkUser>, sessionId: Option<string>, session: Option<VerifyPayment.Session>)
    | CheckInRequest(caller: Option<ClerkUser>, ticketId: ObjectId, eventId: ObjectId)
    | CreateEventRequest(caller: Option<ClerkUser>, data: EventData)
    | UpdateEventRequest(caller: Option<ClerkUser>, eventId: ObjectId, data: EventData)
    | DeleteEventRequest(caller: Option<ClerkUser>, eventId: ObjectId)

  /** A request and the clock's reading when it runs. */
  datatype Timed = Timed(request: Request, now: int)

  /** The store a request leaves behind. */
  ghost function Apply(s: Store, r: Timed): Store {
    var now := r.now;
    match r.request
    case SyncUserRequest(caller) => UserActions.SyncUserSpec(s, caller, now).store
    case RegisterRequest(caller, eventId, tierId, tierName, priceCents, appUrl, isDevelopment, checkoutUrl) =>
      TicketActions.RegisterSpec(s, caller, eventId, tierId, tierName, priceCents, appUrl, isDevelopment,
                                 checkoutUrl, now).store
    case WebhookRequest(signatureValid, event, storeFault) =>
      Webhook.WebhookSpec(s, signatureValid, event, storeFault, now).store
    case VerifyPaymentRequest(caller, sessionId, session) =>
      VerifyPayment.VerifySpec(s, caller, sessionId, session, now).store
    case CheckInRequest(caller, ticketId, eventId) => Scan.CheckInSpec(s, caller, ticketId, eventId, now).store
    case CreateEventRequest(caller, data) => EventActions.CreateEventSpec(s, caller, data, now).store
    case UpdateEventRequest(caller, eventId, data) => EventActions.UpdateEventSpec(s, caller, eventId, data).store
    case DeleteEventRequest(caller, eventId) => EventActions.DeleteEventSpec(s, caller, eventId).store
  }

  /** The store after the requests, one after the other. */
  ghost function Run(s: Store, rs: seq<Timed>): Store
    decreases |rs|
  {
    if |rs| == 0 then s else Run(Apply(s, rs[0]), rs[1..])
  }

  // ---------------------------------------------------------------------------
  // How a ticket may change

  /** A ticket `t` may have become `t'`: the holder, event, tier and purchase
      date stay; a scanned or a cancelled ticket does not change at all; and a
      ticket is pending afterwards only if it was left exactly as it was. */
  ghost predicate NoRegress(t: Ticket, t': Ticket) {
    && t'.eventId == t.eventId && t'.userId == t.userId && t'.clerkUserId == t.clerkUserId
    && t'.tierId == t.tierId && t'.tierName == t.tierName && t'.purchaseDate == t.purchaseDate
    && (t.isScanned ==> t' == t)
    && (t.status == Cancelled ==> t' == t)
    && (t'.status == Pending ==> t' == t)
  }

  /** `id` is one of the ids minted from counter `k` on. */
  ghost predicate MintedFrom(id: ObjectId, k: nat) {
    exists n: nat :: k <= n && id == MintId(n)
  }

  /** What any stretch of requests does to the tickets: the counter only grows,
      a ticket present before and after has not regressed, and a ticket that is
      new was given a freshly minted id and is not pending. */
  ghost predicate Progress(s: Store, s': Store) {
    && s.minted <= s'.minted
    && (forall id :: id in s.tickets && id in s'.tickets ==> NoRegress(s.tickets[id], s'.tickets[id]))
    && (forall id :: id in s'.tickets && id !in s.tickets ==>
          MintedFrom(id, s.minted) && s'.tickets[id].status != Pending)
  }

  /** What one request does: progress, and every new ticket is active and unscanned. */
  ghost predicate StepProgress(s: Store, s': Store) {
    && Progress(s, s')
    && (forall id :: id in s'.tickets && id !in s.tickets ==>
          s'.tickets[id].status == Active && !s'.tickets[id].isScanned)
  }

  /** Inserting an active, unscanned ticket after a step that left the tickets alone. */
  lemma InsertAfterProgress(s: Store, s1: Store, t: Ticket)
    requires Invariant(s1) && s1.tickets == s.tickets && s.minted <= s1.minted
    requires t.status == Active && !t.isScanned
    ensures StepProgress(s, InsertTicket(s1, t))
  {
    NextIdIsFresh(s1);
    var s2 := InsertTicket(s1, t);
    forall id | id in s2.tickets && id !in s.tickets
      ensures MintedFrom(id, s.minted) && s2.tickets[id].status == Active && !s2.tickets[id].isScanned
    {
      assert id == MintId(s1.minted);
    }
  }

  lemma SyncUserProgress(s: Store, caller: Option<ClerkUser>, now: int)
    requires Invariant(s)
    ensures StepProgress(s, UserActions.SyncUserSpec(s, caller, now).store)
  {
    var s' := UserActions.SyncUserSpec(s, caller, now).store;
    assert s'.tickets == s.tickets && s.minted <= s'.minted;
  }

  lemma RegisterProgress(s: Store, caller: Option<ClerkUser>, eventId: ObjectId, tierId: string,
                         tierName: string, priceCents: int, appUrl: Option<string>,
                         isDevelopment: bool, checkoutUrl: Option<string>, now: int)
    requires Invariant(s)
    ensures StepProgress(s, TicketActions.RegisterSpec(s, caller, eventId, tierId, tierName, priceCents, appUrl,
                                                       isDevelopment, checkoutUrl, now).store)
  {
    if caller.Some? {
      var c := caller.value;
      UserActions.ResolveUserBindsCaller(s, c, now);
      UserActions.ResolveUserKeepsInvariant(s, c, now);
      var resolved := UserActions.ResolveUserSpec(s, c, now);
      var s1 := resolved.store;
      if resolved.response.Ok? && eventId in s1.events && priceCents == 0 {
        var d := TicketActions.FreeDraft(eventId, resolved.response.value, c, tierId, tierName);
        if NewTicket(d, now).Ok? {
          InsertAfterProgress(s, s1, NewTicket(d, now).value);
        }
      }
    }
  }

  lemma WebhookProgress(s: Store, signatureValid: bool, event: Webhook.StripeEvent, storeFault: bool, now: int)
    requires Invariant(s)
    ensures StepProgress(s, Webhook.WebhookSpec(s, signatureValid, event, storeFault, now).store)
  {
    var meta := Webhook.MetadataOf(event);
    if signatureValid && event.kind == Webhook.CheckoutCompleted && Webhook.HasAllKeys(meta) && !storeFault {
      Webhook.FulfilmentDraftValid(meta, now);
      InsertAfterProgress(s, s, NewTicket(Webhook.FulfilmentDraft(meta), now).value);
    }
  }

  lemma VerifyPaymentProgress(s: Store, caller: Option<ClerkUser>, sessionId: Option<string>,
                              session: Option<VerifyPayment.Session>, now: int)
    requires Invariant(s)
    ensures StepProgress(s, VerifyPayment.VerifySpec(s, caller, sessionId, session, now).store)
  {
    var v := VerifyPayment.VerifySpec(s, caller, sessionId, session, now);
    if v.store != s {
      var sn := session.value;
      var ref := VerifyPayment.ReferencedTicket(s.tickets, sn);
      if ref.Some? && s.tickets[ref.value].status == Pending {
        assert ScanConsistent(s.tickets[ref.value]);
      } else {
        InsertAfterProgress(s, s, NewTicket(VerifyPayment.FallbackDraft(sn), now).value);
      }
    }
  }

  lemma CheckInProgress(s: Store, caller: Option<ClerkUser>, ticketId: ObjectId, eventId: ObjectId, now: int)
    requires Invariant(s)
    ensures StepProgress(s, Scan.CheckInSpec(s, caller, ticketId, eventId, now).store)
  {
    Scan.CheckInOutcome(s, caller, ticketId, eventId, now);
  }

  lemma CreateEventProgress(s: Store, caller: Option<ClerkUser>, data: EventData, now: int)
    requires Invariant(s)
    ensures StepProgress(s, EventActions.CreateEventSpec(s, caller, data, now).store)
  {
    EventActions.CreateEventRecordsOrganizer(s, caller, data, now);
  }

  lemma UpdateEventProgress(s: Store, caller: Option<ClerkUser>, eventId: ObjectId, data: EventData)
    requires Invariant(s)
    ensures StepProgress(s, EventActions.UpdateEventSpec(s, caller, eventId, data).store)
  {
    EventActions.UpdateEventOutcome(s, caller, eventId, data);
  }

  lemma DeleteEventProgress(s: Store, caller: Option<ClerkUser>, eventId: ObjectId)
    requires Invariant(s)
    ensures StepProgress(s, EventActions.DeleteEventSpec(s, caller, eventId).store)
  {
    EventActions.DeleteEventCascades(s, caller, eventId);
  }

  /** Every single request makes progress and keeps the invariant. */
  lemma ApplyProgress(s: Store, r: Timed)
    requires Invariant(s)
    ensures Invariant(Apply(s, r))
    ensures StepProgress(s, Apply(s, r))
  {
    var now := r.now;
    match r.request
    case SyncUserRequest(caller) =>
      UserActions.SyncUserKeepsInvariant(s, caller, now);
      SyncUserProgress(s, caller, now);
    case RegisterRequest(caller, eventId, tierId, tierName, priceCents, appUrl, isDevelopment, checkoutUrl) =>
      TicketActions.RegisterKeepsInvariant(s, caller, eventId, tierId, tierName, priceCents, appUrl,
                                           isDevelopment, checkoutUrl, now);
      RegisterProgress(s, caller, eventId, tierId, tierName, priceCents, appUrl, isDevelopment, checkoutUrl, now);
    case WebhookRequest(signatureValid, event, storeFault) =>
      Webhook.WebhookKeepsInvariant(s, signatureValid, event, storeFault, now);
      WebhookProgress(s, signatureValid, event, storeFault, now);
    case VerifyPaymentRequest(caller, sessionId, session) =>
      VerifyPayment.VerifyKeepsInvariant(s, caller, sessionId, session, now);
      VerifyPaymentProgress(s, caller, sessionId, session, now);
    case CheckInRequest(caller, ticketId, eventId) =>
      Scan.CheckInKeepsInvariant(s, caller, ticketId, eventId, now);
      CheckInProgress(s, caller, ticketId, eventId, now);
    case CreateEventRequest(caller, data) =>
      EventActions.CreateEventKeepsInvariant(s, caller, data, now);
      CreateEventProgress(s, caller, data, now);
    case UpdateEventRequest(caller, eventId, data) =>
      EventActions.UpdateEventKeepsInvariant(s, caller, eventId, data);
      UpdateEventProgress(s, caller, eventId, data);
    case DeleteEventRequest(caller, eventId) =>
      EventActions.DeleteEventKeepsInvariant(s, caller, eventId);
      DeleteEventProgress(s, caller, eventId);
  }

  /** Progress composes. A ticket present at both ends but missing in between
      is impossible: it would have been re-inserted under a minted id, and
      minted ids are fresh with respect to the first store. */
  lemma ProgressTransitive(s1: Store, s2: Store, s3: Store)
    requires Invariant(s1)
    requires Progress(s1, s2) && Progress(s2, s3)
    ensures Progress(s1, s3)
  {
    forall id | id in s1.tickets && id in s3.tickets
      ensures NoRegress(s1.tickets[id], s3.tickets[id])
    {
      assert id in s2.tickets;
    }
    forall id | id in s3.tickets && id !in s1.tickets
      ensures MintedFrom(id, s1.minted) && s3.tickets[id].status != Pending
    {
      if id in s2.tickets {
        assert NoRegress(s2.tickets[id], s3.tickets[id]);
      } else {
        var n: nat :| s2.minted <= n && id == MintId(n);
        assert s1.minted <= n;
      }
    }
  }

  /** Any sequence of requests keeps the invariant and makes progress. */
  lemma {:induction false} RunProgress(s: Store, rs: seq<Timed>)
    requires Invariant(s)
    ensures Invariant(Run(s, rs))
    ensures Progress(s, Run(s, rs))
    decreases |rs|
  {
    if |rs| > 0 {
      var s1 := Apply(s, rs[0]);
      ApplyProgress(s, rs[0]);
      RunProgress(s1, rs[1..]);
      ProgressTransitive(s, s1, Run(s1, rs[1..]));
    }
  }

  /** A store without pending tickets never gets one: since no request can
      create a pending ticket, the activation branch of payment verification
      is unreachable from such a store. */
  lemma RunStaysPendingFree(s: Store, rs: seq<Timed>)
    requires Invariant(s)
    requires forall id :: id in s.tickets ==> s.tickets[id].status != Pending
    ensures forall id :: id in Run(s, rs).tickets ==> Run(s, rs).tickets[id].status != Pending
  {
    RunProgress(s, rs);
    var s' := Run(s, rs);
    forall id | id in s'.tickets
      ensures s'.tickets[id].status != Pending
    {
      if id in s.tickets {
        assert NoRegress(s.tickets[id], s'.tickets[id]);
      }
    }
  }

  /** A checked-in ticket stays checked in, whatever follows, as long as it exists. */
  lemma CheckedInStaysCheckedIn(s: Store, rs: seq<Timed>, id: ObjectId)
    requires Invariant(s)
    requires id in s.tickets && s.tickets[id].isScanned
    ensures id in Run(s, rs).tickets ==> Run(s, rs).tickets[id] == s.tickets[id]
  {
    RunProgress(s, rs);
  }

  // ---------------------------------------------------------------------------
  // One payment, two tickets

  /** Verify-payment for a paid session of the caller whose metadata has the
      five keys and no ticket id: the fallback creates a new active ticket. */
  lemma VerifyFallbackFulfils(s: Store, c: ClerkUser, meta: map<string, string>, sessionId: string,
                              sn: VerifyPayment.Session, now: int)
    requires Invariant(s)
    requires Truthy(Lookup(meta, "eventId")) && Truthy(Lookup(meta, "mongoUserId"))
    requires Truthy(Lookup(meta, "tierId")) && Truthy(Lookup(meta, "tierName"))
    requires Lookup(meta, "clerkUserId") == Some(c.id) && c.id != "" && "ticketId" !in meta
    requires sessionId != "" && sn.paymentStatus == "paid" && sn.metadata == Some(meta)
    ensures var r := VerifyPayment.VerifySpec(s, Some(c), Some(sessionId), Some(sn), now);
      && r.response == VerifyPayment.Verified(NextId(s), r.response.ticket)
      && NextId(s) !in s.tickets
      && r.store.tickets == s.tickets[NextId(s) := r.response.ticket]
      && |r.store.tickets| == |s.tickets| + 1
      && var t := r.response.ticket;
         && t.status == Active && t.clerkUserId == c.id
         && Lookup(meta, "eventId") == Some(t.eventId) && Lookup(meta, "mongoUserId") == Some(t.userId)
         && Lookup(meta, "tierId") == Some(t.tierId) && Lookup(meta, "tierName") == Some(t.tierName)
  {
    assert VerifyPayment.SessionMetadata(sn) == meta;
    VerifyPayment.VerifyPaths(s, c, sessionId, sn, now);
    InsertTicketCount(s, VerifyPayment.VerifySpec(s, Some(c), Some(sessionId), Some(sn), now).response.ticket);
  }

  /** A paid registration's Checkout session, completed, for which Stripe calls
      the webhook. If verify-payment is also called with that session (nothing
      in the code does so after registration, whose success URL carries no
      session id), both fulfil the order, because the metadata has no
      `ticketId`: the payment then yields two active tickets for the same
      event, user and tier. */
  lemma WebhookThenVerifyFulfilsTwice(s: Store, c: ClerkUser, meta: map<string, string>,
                                      sessionId: string, paymentIntent: Option<string>, amountTotal: Option<int>,
                                      now: int, later: int)
    requires Invariant(s)
    requires Webhook.HasAllKeys(meta) && Lookup(meta, "clerkUserId") == Some(c.id) && "ticketId" !in meta
    requires sessionId != ""
    ensures var s1 := Webhook.WebhookSpec(s, true, Webhook.StripeEvent(Webhook.CheckoutCompleted, Some(meta)), false, now).store;
      var sn := VerifyPayment.Session("paid", paymentIntent, amountTotal, Some(meta));
      var r := VerifyPayment.VerifySpec(s1, Some(c), Some(sessionId), Some(sn), later);
      && r.response.Verified?
      && |r.store.tickets| == |s.tickets| + 2
      && NextId(s) in r.store.tickets && r.response.id != NextId(s)
      && var a, b := r.store.tickets[NextId(s)], r.response.ticket;
         && a.status == Active && b.status == Active
         && a.eventId == b.eventId && a.userId == b.userId && a.clerkUserId == b.clerkUserId
         && a.tierId == b.tierId && a.tierName == b.tierName
  {
    var ev := Webhook.StripeEvent(Webhook.CheckoutCompleted, Some(meta));
    assert Webhook.MetadataOf(ev) == meta;
    Webhook.WebhookOutcome(s, true, ev, false, now);
    Webhook.WebhookKeepsInvariant(s, true, ev, false, now);
    var s1 := Webhook.WebhookSpec(s, true, ev, false, now).store;
    var sn := VerifyPayment.Session("paid", paymentIntent, amountTotal, Some(meta));
    assert Truthy(Lookup(meta, Webhook.MetadataKeys[0])) && Truthy(Lookup(meta, Webhook.MetadataKeys[1]))
        && Truthy(Lookup(meta, Webhook.MetadataKeys[2])) && Truthy(Lookup(meta, Webhook.MetadataKeys[3]))
        && Truthy(Lookup(meta, Webhook.MetadataKeys[4]));
    VerifyFallbackFulfils(s1, c, meta, sessionId, sn, later);
    assert NextId(s) in s1.tickets;
  }
}

/**
  * app/api/webhook/stripe/route.ts: Stripe's `checkout.session.completed`
  * notification fulfils a paid registration by inserting one active ticket.
  *
  * The signature check (`constructEvent` over the raw body and the secret) is
  * the boolean `signatureValid`; a failing database connection or insert is
  * the boolean `storeFault`.
  */
module Webhook {
  import opened Common
  import opened ObjectIds
  import opened TicketModel
  import opened DataStore

  /** The parsed notification: its type and, for a Checkout session, the session's metadata. */
  datatype StripeEvent = StripeEvent(kind: string, metadata: Option<map<string, string>>)

  const CheckoutCompleted := "checkout.session.completed"

  const MetadataKeys := ["eventId", "clerkUserId", "mongoUserId", "tierId", "tierName"]

  /** `session.metadata || {}` */
  function MetadataOf(ev: StripeEvent): map<string, string> {
    if ev.metadata.Some? then ev.metadata.value else map[]
  }

  /** `!eventId || !clerkUserId || !mongoUserId || !tierId || !tierName` is false. */
  predicate HasAllKeys(meta: map<string, string>) {
    forall i :: 0 <= i < |MetadataKeys| ==> Truthy(Lookup(meta, MetadataKeys[i]))
  }

  /** `Ticket.create({eventId, userId: mongoUserId, clerkUserId, tierId, tierName, status: "active"})` */
  function FulfilmentDraft(meta: map<string, string>): TicketDraft {
    TicketDraft(Lookup(meta, "eventId"), Lookup(meta, "mongoUserId"), Lookup(meta, "clerkUserId"),
                Lookup(meta, "tierId"), Lookup(meta, "tierName"), Some(Active), None, None)
  }

  /** The handler; the response is the HTTP status code. */
  ghost function WebhookSpec(s: Store, signatureValid: bool, ev: StripeEvent, storeFault: bool, now: int): Step<int> {
    if !signatureValid then Step(s, 400)
    else if ev.kind != CheckoutCompleted then Step(s, 200)
    else
      var meta := MetadataOf(ev);
      if !HasAllKeys(meta) then Step(s, 400)
      else if storeFault then Step(s, 500)
      else
        match NewTicket(FulfilmentDraft(meta), now)
        case Err(_) => Step(s, 500)
        case Ok(t) => Step(InsertTicket(s, t), 200)
  }

  /** With all five keys the draft always passes the schema. */
  lemma FulfilmentDraftValid(meta: map<string, string>, now: int)
    requires HasAllKeys(meta)
    ensures NewTicket(FulfilmentDraft(meta), now).Ok?
    ensures StoredTicket(NewTicket(FulfilmentDraft(meta), now).value)
  {
    assert Truthy(Lookup(meta, MetadataKeys[0])) && Truthy(Lookup(meta, MetadataKeys[1]))
        && Truthy(Lookup(meta, MetadataKeys[2])) && Truthy(Lookup(meta, MetadataKeys[3]))
        && Truthy(Lookup(meta, MetadataKeys[4]));
  }

  lemma WebhookKeepsInvariant(s: Store, signatureValid: bool, ev: StripeEvent, storeFault: bool, now: int)
    requires Invariant(s)
    ensures Invariant(WebhookSpec(s, signatureValid, ev, storeFault, now).store)
  {
    if signatureValid && ev.kind == CheckoutCompleted && HasAllKeys(MetadataOf(ev)) && !storeFault {
      FulfilmentDraftValid(MetadataOf(ev), now);
      InsertTicketKeepsInvariant(s, NewTicket(FulfilmentDraft(MetadataOf(ev)), now).value);
    }
  }

  /** The outcomes: a bad signature is 400, another event type 200, missing
      metadata 400 and a store failure 500, none of them changing anything;
      otherwise 200 with exactly one new active ticket carrying the metadata's
      values. Users, events and existing tickets are never touched. */
  lemma WebhookOutcome(s: Store, signatureValid: bool, ev: StripeEvent, storeFault: bool, now: int)
    requires Invariant(s)
    ensures var r := WebhookSpec(s, signatureValid, ev, storeFault, now);
      && r.store.users == s.users && r.store.events == s.events
      && (forall id :: id in s.tickets ==> id in r.store.tickets && r.store.tickets[id] == s.tickets[id])
      && (!signatureValid ==> r == Step(s, 400))
      && (signatureValid && ev.kind != CheckoutCompleted ==> r == Step(s, 200))
      && (signatureValid && ev.kind == CheckoutCompleted && !HasAllKeys(MetadataOf(ev)) ==> r == Step(s, 400))
      && (signatureValid && ev.kind == CheckoutCompleted && HasAllKeys(MetadataOf(ev)) ==>
            if storeFault then r == Step(s, 500)
            else
              && r.response == 200
              && NextId(s) !in s.tickets
              && r.store.tickets.Keys == s.tickets.Keys + {NextId(s)}
              && |r.store.tickets| == |s.tickets| + 1
              && var t := r.store.tickets[NextId(s)];
                 var meta := MetadataOf(ev);
                 && t.status == Active && !t.isScanned && t.scannedAt.None?
                 && t.eventId == meta["eventId"] && t.userId == meta["mongoUserId"]
                 && t.clerkUserId == meta["clerkUserId"]
                 && t.tierId == meta["tierId"] && t.tierName == meta["tierName"])
  {
    if signatureValid && ev.kind == CheckoutCompleted && HasAllKeys(MetadataOf(ev)) && !storeFault {
      FulfilmentDraftValid(MetadataOf(ev), now);
      var t := NewTicket(FulfilmentDraft(MetadataOf(ev)), now).value;
      InsertTicketKeepsInvariant(s, t);
      InsertTicketCount(s, t);
    }
  }

  /** The handler is not idempotent: Stripe delivering the same completed event
      twice leaves two new active tickets with the same event, user and tier. */
  lemma WebhookRedeliveryDuplicates(s: Store, ev: StripeEvent, now: int, later: int)
    requires Invariant(s)
    requires ev.kind == CheckoutCompleted && HasAllKeys(MetadataOf(ev))
    ensures var r1 := WebhookSpec(s, true, ev, false, now);
      var r2 := WebhookSpec(r1.store, true, ev, false, later);
      && r1.response == 200 && r2.response == 200
      && |r2.store.tickets| == |s.tickets| + 2
      && NextId(s) != NextId(r1.store)
      && NextId(s) !in s.tickets && NextId(r1.store) !in s.tickets
      && var a, b := r2.store.tickets[NextId(s)], r2.store.tickets[NextId(r1.store)];
         && a.status == Active && b.status == Active
         && a.eventId == b.eventId && a.userId == b.userId && a.tierId == b.tierId
  {
    WebhookOutcome(s, true, ev, false, now);
    WebhookKeepsInvariant(s, true, ev, false, now);
    var s1 := WebhookSpec(s, true, ev, false, now).store;
    WebhookOutcome(s1, true, ev, false, later);
    NextIdIsFresh(s1);
    MintIdInjective(s.minted, s1.minted);
  }

  method HandleWebhook(db: Database, signatureValid: bool, ev: StripeEvent, storeFault: bool, now: int)
    returns (status: int)
    requires db.Valid()
    modifies db
    ensures db.Valid()
    ensures Step(db.Snapshot(), status) == WebhookSpec(old(db.Snapshot()), signatureValid, ev, storeFault, now)
  {
    if !signatureValid {
      return 400;
    }
    if ev.kind != CheckoutCompleted {
      return 200;
    }
    var meta := MetadataOf(ev);
    if !HasAllKeys(meta) {
      return 400;
    }
    if storeFault {
      return 500;
    }
    FulfilmentDraftValid(meta, now);
    var created := NewTicket(FulfilmentDraft(meta), now);
    var _ := db.AddTicket(created.value);
    return 200;
  }
}

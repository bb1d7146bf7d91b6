/**
  * actions/tickets.ts: `registerForEvent` resolves the caller's user document,
  * checks the event, and then either issues a free ticket at once or prepares a
  * Stripe Checkout session for a paid tier (creating no ticket); and
  * `getUserTickets`, the caller's active tickets, newest first.
  *
  * The tier price is given in integer cents. The Checkout session is the
  * request the action would send; the URL Stripe answers with is an input.
  */
module TicketActions {
  import opened Common
  import opened ObjectIds
  import opened UserModel
  import opened EventModel
  import opened TicketModel
  import opened DataStore
  import opened UserActions

  datatype RegisterError =
    | NotSignedIn
    | UserRejected(userError: UserError)
    | EventNotFound
    | TicketRejected(ticketError: TicketError)
    | NoHostUrl
    | NoCheckoutUrl

  /** The body of `stripe.checkout.sessions.create` (one line item, quantity 1, card payment). */
  datatype CheckoutRequest = CheckoutRequest(
    successUrl: string,
    cancelUrl: string,
    customerEmail: string,
    clientReferenceId: string,
    metadata: map<string, string>,
    productName: string,
    productImages: seq<string>,
    unitAmount: int)

  /** `{success: true, url}` (with the Checkout request sent on the paid path) or `{success: false, error}`. */
  datatype RegisterResponse =
    | Registered(url: string, checkout: Option<CheckoutRequest>)
    | RegisterFailed(error: RegisterError)

  const TicketsPage := "/dashboard/tickets"

  /** `NEXT_PUBLIC_APP_URL || (NODE_ENV === "development" ? "http://localhost:3000" : "")` */
  function CurrentHost(appUrl: Option<string>, isDevelopment: bool): (r: string)
    ensures Truthy(appUrl) ==> r == appUrl.value
    ensures r == "" <==> !Truthy(appUrl) && !isDevelopment
  {
    OrElse(appUrl, if isDevelopment then "http://localhost:3000" else "")
  }

  /** The five metadata keys the Checkout session carries back to the webhook. */
  function CheckoutMetadata(eventId: ObjectId, clerkUserId: string, userId: ObjectId, tierId: string, tierName: string)
    : (m: map<string, string>)
    ensures m.Keys == {"eventId", "clerkUserId", "mongoUserId", "tierId", "tierName"}
    ensures m["eventId"] == eventId && m["clerkUserId"] == clerkUserId && m["mongoUserId"] == userId
    ensures m["tierId"] == tierId && m["tierName"] == tierName
  {
    map["eventId" := eventId, "clerkUserId" := clerkUserId, "mongoUserId" := userId,
        "tierId" := tierId, "tierName" := tierName]
  }

  function BuildCheckout(host: string, c: ClerkUser, userId: ObjectId, eventId: ObjectId, ev: Event,
                         tierId: string, tierName: string, priceCents: int): CheckoutRequest
  {
    CheckoutRequest(
      host + "/dashboard/tickets?success=true",
      host + "/events/" + eventId + "?canceled=true",
      PrimaryEmail(c),
      c.id,
      CheckoutMetadata(eventId, c.id, userId, tierId, tierName),
      ev.title + " - " + tierName,
      if |ev.imageUrls| > 0 then [ev.imageUrls[0]] else [],
      priceCents)
  }

  /** The draft `registerForEvent` hands to `Ticket.create` for a free tier. */
  function FreeDraft(eventId: ObjectId, userId: ObjectId, c: ClerkUser, tierId: string, tierName: string): TicketDraft {
    TicketDraft(Some(eventId), Some(userId), Some(c.id), Some(tierId), Some(tierName), None, None, None)
  }

  /** `registerForEvent(eventId, tierId, tierName, tierPrice)`. A failure after the
      user was resolved keeps the user change: nothing is rolled back. */
  ghost function RegisterSpec(s: Store, caller: Option<ClerkUser>, eventId: ObjectId, tierId: string,
                              tierName: string, priceCents: int, appUrl: Option<string>,
                              isDevelopment: bool, checkoutUrl: Option<string>, now: int)
    : Step<RegisterResponse>
  {
    if caller.None? then Step(s, RegisterFailed(NotSignedIn))
    else
      var c := caller.value;
      var resolved := ResolveUserSpec(s, c, now);
      var s1 := resolved.store;
      if resolved.response.Err? then Step(s1, RegisterFailed(UserRejected(resolved.response.error)))
      else
        var userId := resolved.response.value;
        if eventId !in s1.events then Step(s1, RegisterFailed(EventNotFound))
        else if priceCents == 0 then
          match NewTicket(FreeDraft(eventId, userId, c, tierId, tierName), now)
          case Err(e) => Step(s1, RegisterFailed(TicketRejected(e)))
          case Ok(t) => Step(InsertTicket(s1, t), Registered(TicketsPage, None))
        else
          var host := CurrentHost(appUrl, isDevelopment);
          if host == "" then Step(s1, RegisterFailed(NoHostUrl))
          else if !Truthy(checkoutUrl) then Step(s1, RegisterFailed(NoCheckoutUrl))
          else
            Step(s1, Registered(checkoutUrl.value,
                                Some(BuildCheckout(host, c, userId, eventId, s1.events[eventId], tierId, tierName, priceCents))))
  }

  lemma RegisterKeepsInvariant(s: Store, caller: Option<ClerkUser>, eventId: ObjectId, tierId: string,
                               tierName: string, priceCents: int, appUrl: Option<string>,
                               isDevelopment: bool, checkoutUrl: Option<string>, now: int)
    requires Invariant(s)
    ensures Invariant(RegisterSpec(s, caller, eventId, tierId, tierName, priceCents, appUrl, isDevelopment, checkoutUrl, now).store)
  {
    if caller.Some? {
      var c := caller.value;
      ResolveUserKeepsInvariant(s, c, now);
      var resolved := ResolveUserSpec(s, c, now);
      if resolved.response.Ok? && eventId in resolved.store.events && priceCents == 0 {
        var d := FreeDraft(eventId, resolved.response.value, c, tierId, tierName);
        if NewTicket(d, now).Ok? {
          NewTicketStorable(d, now);
          InsertTicketKeepsInvariant(resolved.store, NewTicket(d, now).value);
        }
      }
    }
  }

  /** Without a signed-in caller nothing changes; a missing event, a paid tier, or
      any failure creates no ticket (only the caller's user document may change). */
  lemma RegisterCreatesNoTicketUnlessFree(s: Store, caller: Option<ClerkUser>, eventId: ObjectId, tierId: string,
                                          tierName: string, priceCents: int, appUrl: Option<string>,
                                          isDevelopment: bool, checkoutUrl: Option<string>, now: int)
    requires Invariant(s)
    ensures var r := RegisterSpec(s, caller, eventId, tierId, tierName, priceCents, appUrl, isDevelopment, checkoutUrl, now);
      && (caller.None? ==> r == Step(s, RegisterFailed(NotSignedIn)))
      && r.store.events == s.events
      && (priceCents != 0 || r.response.RegisterFailed? ==> r.store.tickets == s.tickets)
      && (eventId !in s.events && caller.Some? ==> r.response.RegisterFailed? && r.store.tickets == s.tickets)
  {
    if caller.Some? {
      ResolveUserBindsCaller(s, caller.value, now);
    }
  }

  /** A free tier with a resolvable caller and an existing event adds exactly one
      active, unscanned ticket, for the resolved user and the given tier, and
      sends the caller to the tickets page. */
  lemma RegisterFreeTierIssuesTicket(s: Store, c: ClerkUser, eventId: ObjectId, tierId: string,
                                     tierName: string, appUrl: Option<string>,
                                     isDevelopment: bool, checkoutUrl: Option<string>, now: int)
    requires Invariant(s)
    requires ResolveUserSpec(s, c, now).response.Ok? && eventId in s.events
    requires c.id != "" && tierId != "" && tierName != ""
    ensures var s1 := ResolveUserSpec(s, c, now).store;
      var r := RegisterSpec(s, Some(c), eventId, tierId, tierName, 0, appUrl, isDevelopment, checkoutUrl, now);
      && r.response == Registered(TicketsPage, None)
      && r.store.users == s1.users && r.store.events == s.events
      && |r.store.tickets| == |s.tickets| + 1
      && NextId(s1) !in s.tickets && r.store.tickets == s.tickets[NextId(s1) := r.store.tickets[NextId(s1)]]
      && var t := r.store.tickets[NextId(s1)];
         && t.eventId == eventId && t.userId == ResolveUserSpec(s, c, now).response.value && t.clerkUserId == c.id
         && t.tierId == tierId && t.tierName == tierName
         && t.status == Active && !t.isScanned && t.purchaseDate == now
  {
    ResolveUserBindsCaller(s, c, now);
    ResolveUserKeepsInvariant(s, c, now);
    var s1 := ResolveUserSpec(s, c, now).store;
    var userId := ResolveUserSpec(s, c, now).response.value;
    var t := NewTicket(FreeDraft(eventId, userId, c, tierId, tierName), now).value;
    InsertTicketCount(s1, t);
    NextIdIsFresh(s1);
  }

  /** No registration looks at existing tickets: registering twice for the same
      free tier leaves two more tickets than before. */
  lemma RegisterTwiceTwoTickets(s: Store, c: ClerkUser, eventId: ObjectId, tierId: string,
                                tierName: string, appUrl: Option<string>, isDevelopment: bool,
                                checkoutUrl: Option<string>, now: int, later: int)
    requires Invariant(s)
    requires ResolveUserSpec(s, c, now).response.Ok? && eventId in s.events
    requires c.id != "" && tierId != "" && tierName != ""
    ensures var r1 := RegisterSpec(s, Some(c), eventId, tierId, tierName, 0, appUrl, isDevelopment, checkoutUrl, now);
      var r2 := RegisterSpec(r1.store, Some(c), eventId, tierId, tierName, 0, appUrl, isDevelopment, checkoutUrl, later);
      r2.response.Registered? && |r2.store.tickets| == |s.tickets| + 2
  {
    RegisterFreeTierIssuesTicket(s, c, eventId, tierId, tierName, appUrl, isDevelopment, checkoutUrl, now);
    RegisterKeepsInvariant(s, Some(c), eventId, tierId, tierName, 0, appUrl, isDevelopment, checkoutUrl, now);
    ResolveUserBindsCaller(s, c, now);
    var userId := ResolveUserSpec(s, c, now).response.value;
    var s1 := RegisterSpec(s, Some(c), eventId, tierId, tierName, 0, appUrl, isDevelopment, checkoutUrl, now).store;
    assert userId in s1.users && s1.users[userId].clerkId == c.id;
    ResolveUserStable(s1, c, later, userId);
    assert eventId in s1.events;
    RegisterFreeTierIssuesTicket(s1, c, eventId, tierId, tierName, appUrl, isDevelopment, checkoutUrl, later);
  }

  /** A paid registration that succeeds returns Stripe's URL and a Checkout
      request. The request sends the buyer back to the tickets page with no
      session id, so the payment-verification route is never reached from
      here. It charges the tier price in cents, and its metadata holds exactly
      the event, the caller's clerk id, the resolved user id and the tier. */
  lemma RegisterPaidTierCheckout(s: Store, c: ClerkUser, eventId: ObjectId, tierId: string,
                                 tierName: string, priceCents: int, appUrl: Option<string>,
                                 isDevelopment: bool, checkoutUrl: Option<string>, now: int)
    requires Invariant(s) && priceCents != 0
    ensures var r := RegisterSpec(s, Some(c), eventId, tierId, tierName, priceCents, appUrl, isDevelopment, checkoutUrl, now);
      && r.store.tickets == s.tickets
      && (r.response.Registered? <==>
            ResolveUserSpec(s, c, now).response.Ok? && eventId in s.events
            && CurrentHost(appUrl, isDevelopment) != "" && Truthy(checkoutUrl))
      && (r.response.Registered? ==>
            && r.response.url == checkoutUrl.value && r.response.url != ""
            && r.response.checkout.Some?
            && var req := r.response.checkout.value;
               && req.successUrl == CurrentHost(appUrl, isDevelopment) + "/dashboard/tickets?success=true"
               && req.unitAmount == priceCents
               && req.clientReferenceId == c.id
               && req.metadata.Keys == {"eventId", "clerkUserId", "mongoUserId", "tierId", "tierName"}
               && req.metadata["eventId"] == eventId && req.metadata["clerkUserId"] == c.id
               && req.metadata["mongoUserId"] == ResolveUserSpec(s, c, now).response.value
               && req.metadata["tierId"] == tierId && req.metadata["tierName"] == tierName)
  {
    ResolveUserBindsCaller(s, c, now);
  }

  method RegisterForEvent(db: Database, caller: Option<ClerkUser>, eventId: ObjectId, tierId: string,
                          tierName: string, priceCents: int, appUrl: Option<string>,
                          isDevelopment: bool, checkoutUrl: Option<string>, now: int)
    returns (response: RegisterResponse)
    requires db.Valid()
    modifies db
    ensures db.Valid()
    ensures Step(db.Snapshot(), response)
         == RegisterSpec(old(db.Snapshot()), caller, eventId, tierId, tierName, priceCents, appUrl, isDevelopment, checkoutUrl, now)
  {
    RegisterKeepsInvariant(db.Snapshot(), caller, eventId, tierId, tierName, priceCents, appUrl, isDevelopment, checkoutUrl, now);
    if caller.None? {
      return RegisterFailed(NotSignedIn);
    }
    var c := caller.value;
    var resolved := ResolveUser(db, c, now);
    if resolved.Err? {
      return RegisterFailed(UserRejected(resolved.error));
    }
    var userId := resolved.value;
    if eventId !in db.events {
      return RegisterFailed(EventNotFound);
    }
    if priceCents == 0 {
      var created := NewTicket(FreeDraft(eventId, userId, c, tierId, tierName), now);
      if created.Err? {
        return RegisterFailed(TicketRejected(created.error));
      }
      NewTicketStorable(FreeDraft(eventId, userId, c, tierId, tierName), now);
      var _ := db.AddTicket(created.value);
      return Registered(TicketsPage, None);
    }
    var host := CurrentHost(appUrl, isDevelopment);
    if host == "" {
      return RegisterFailed(NoHostUrl);
    }
    if !Truthy(checkoutUrl) {
      return RegisterFailed(NoCheckoutUrl);
    }
    var request := BuildCheckout(host, c, userId, eventId, db.events[eventId], tierId, tierName, priceCents);
    return Registered(checkoutUrl.value, Some(request));
  }

  // ---------------------------------------------------------------------------
  // getUserTickets

  datatype TicketsError = TicketsUnauthorized

  predicate IsOwnActive(clerkId: string, t: Ticket) {
    t.clerkUserId == clerkId && t.status == Active
  }

  /** `Ticket.find({clerkUserId, status: "active"}).sort({purchaseDate: -1})`:
      every active ticket of the caller, once each, newest purchase first. */
  method GetUserTickets(db: Database, caller: Option<ClerkUser>) returns (r: Result<seq<ObjectId>, TicketsError>)
    ensures caller.None? <==> r.Err?
    ensures r.Ok? ==> forall i :: 0 <= i < |r.value| ==> r.value[i] in db.tickets && IsOwnActive(caller.value.id, db.tickets[r.value[i]])
    ensures r.Ok? ==> forall id :: id in db.tickets && IsOwnActive(caller.value.id, db.tickets[id]) ==> id in r.value
    ensures r.Ok? ==> forall i, j :: 0 <= i < j < |r.value| ==> r.value[i] != r.value[j]
    ensures r.Ok? ==> forall i, j :: 0 <= i < j < |r.value| ==>
                        db.tickets[r.value[i]].purchaseDate >= db.tickets[r.value[j]].purchaseDate
  {
    if caller.None? {
      return Err(TicketsUnauthorized);
    }
    var clerkId := caller.value.id;
    var ids := FindSorted(db.tickets, (t: Ticket) => IsOwnActive(clerkId, t), (t: Ticket) => t.purchaseDate);
    return Ok(ids);
  }
}

/**
  * app/api/verify-payment/route.ts: the success page's fallback to the webhook.
  * It checks the caller, the session id, that the Checkout session is paid and
  * that it belongs to the caller; then it activates the session's pending
  * ticket, accepts an already active one as it is, or else creates a new
  * active ticket from the session's metadata.
  *
  * The retrieved session is an input. `amount` and `paymentId` are written
  * into the draft and the pending ticket, but the ticket schema does not
  * declare them, so they are never stored (see `StrictSchemaDropsPaymentFields`).
  */
module VerifyPayment {
  import opened Common
  import opened ObjectIds
  import opened TicketModel
  import opened DataStore

  /** The fields of a retrieved Checkout session the handler reads. */
  datatype Session = Session(
    paymentStatus: string,
    paymentIntent: Option<string>,
    amountTotal: Option<int>,
    metadata: Option<map<string, string>>)

  /** `{success: true, ticket}` with status 200, or an error status. */
  datatype VerifyResponse = Verified(id: ObjectId, ticket: Ticket) | VerifyFailed(status: int)

  function SessionMetadata(session: Session): map<string, string> {
    if session.metadata.Some? then session.metadata.value else map[]
  }

  /** `tierPrice ? parseFloat(tierPrice) : (session.amount_total || 0) / 100`, kept as its source. */
  function AmountOf(session: Session): (r: AmountSource)
    ensures Truthy(Lookup(SessionMetadata(session), "tierPrice")) <==> r.FromTierPrice?
  {
    var price := Lookup(SessionMetadata(session), "tierPrice");
    if Truthy(price) then FromTierPrice(price.value) else FromSessionTotal(OrNumber(session.amountTotal, 0))
  }

  /** The fallback `Ticket.create`: tier id "unknown" and tier name "General" when absent. */
  function FallbackDraft(session: Session): TicketDraft {
    var meta := SessionMetadata(session);
    TicketDraft(Lookup(meta, "eventId"), Lookup(meta, "mongoUserId"), Lookup(meta, "clerkUserId"),
                Some(OrElse(Lookup(meta, "tierId"), "unknown")), Some(OrElse(Lookup(meta, "tierName"), "General")),
                Some(Active), Some(AmountOf(session)), session.paymentIntent)
  }

  /** The ticket named by the metadata's `ticketId`, when it is truthy and exists. */
  function ReferencedTicket(tickets: map<ObjectId, Ticket>, session: Session): (r: Option<ObjectId>)
    ensures r.Some? ==> r.value in tickets
  {
    var tid := Lookup(SessionMetadata(session), "ticketId");
    if Truthy(tid) && tid.value in tickets then Some(tid.value) else None
  }

  /** The handler. `session` is None when Stripe returns no session. */
  ghost function VerifySpec(s: Store, caller: Option<ClerkUser>, sessionId: Option<string>,
                            session: Option<Session>, now: int): Step<VerifyResponse>
  {
    if caller.None? then Step(s, VerifyFailed(401))
    else if !Truthy(sessionId) then Step(s, VerifyFailed(400))
    else if session.None? || session.value.paymentStatus != "paid" then Step(s, VerifyFailed(400))
    else
      var sn := session.value;
      if Lookup(SessionMetadata(sn), "clerkUserId") != Some(caller.value.id) then Step(s, VerifyFailed(403))
      else
        var ref := ReferencedTicket(s.tickets, sn);
        if ref.Some? && s.tickets[ref.value].status == Active then
          Step(s, Verified(ref.value, s.tickets[ref.value]))
        else if ref.Some? && s.tickets[ref.value].status == Pending then
          var t := s.tickets[ref.value].(status := Active);
          Step(s.(tickets := s.tickets[ref.value := t]), Verified(ref.value, t))
        else
          match NewTicket(FallbackDraft(sn), now)
          case Err(_) => Step(s, VerifyFailed(500))
          case Ok(t) => Step(InsertTicket(s, t), Verified(NextId(s), t))
  }

  lemma VerifyKeepsInvariant(s: Store, caller: Option<ClerkUser>, sessionId: Option<string>,
                             session: Option<Session>, now: int)
    requires Invariant(s)
    ensures Invariant(VerifySpec(s, caller, sessionId, session, now).store)
  {
    var r := VerifySpec(s, caller, sessionId, session, now);
    if r.store != s {
      var sn := session.value;
      var ref := ReferencedTicket(s.tickets, sn);
      if ref.Some? && s.tickets[ref.value].status == Pending {
        RewriteKeepsInvariant(s, r.store);
      } else {
        NewTicketStorable(FallbackDraft(sn), now);
        InsertTicketKeepsInvariant(s, NewTicket(FallbackDraft(sn), now).value);
      }
    }
  }

  /** The guards, in order: no caller 401, no session id 400, no session or an
      unpaid one 400, a session of someone else 403. Each leaves the store as it
      was, and a call past them never answers with one of these statuses. */
  lemma VerifyGuards(s: Store, caller: Option<ClerkUser>, sessionId: Option<string>,
                     session: Option<Session>, now: int)
    ensures var r := VerifySpec(s, caller, sessionId, session, now);
      && (r.response.VerifyFailed? ==> r.store == s)
      && (caller.None? ==> r.response == VerifyFailed(401))
      && (caller.Some? && !Truthy(sessionId) ==> r.response == VerifyFailed(400))
      && (caller.Some? && Truthy(sessionId) && (session.None? || session.value.paymentStatus != "paid") ==>
            r.response == VerifyFailed(400))
      && (r.response == VerifyFailed(403) <==>
            caller.Some? && Truthy(sessionId) && session.Some? && session.value.paymentStatus == "paid"
            && Lookup(SessionMetadata(session.value), "clerkUserId") != Some(caller.value.id))
      && (r.response.Verified? ==>
            caller.Some? && Truthy(sessionId) && session.Some? && session.value.paymentStatus == "paid"
            && SessionMetadata(session.value)["clerkUserId"] == caller.value.id)
  {
  }

  /** Past the guards, the three paths: an active referenced ticket is returned
      and nothing changes; a pending one becomes active and nothing else changes;
      otherwise (no ticket id, no such ticket, or one cancelled or scanned) a new
      active ticket is inserted with the tier defaults, or 500 when the metadata
      lacks the event or user id. */
  lemma VerifyPaths(s: Store, c: ClerkUser, sessionId: string, sn: Session, now: int)
    requires Invariant(s)
    requires sessionId != "" && sn.paymentStatus == "paid" && Lookup(SessionMetadata(sn), "clerkUserId") == Some(c.id)
    ensures var r := VerifySpec(s, Some(c), Some(sessionId), Some(sn), now);
      var ref := ReferencedTicket(s.tickets, sn);
      var meta := SessionMetadata(sn);
      && r.store.users == s.users && r.store.events == s.events
      && (ref.Some? && s.tickets[ref.value].status == Active ==>
            r == Step(s, Verified(ref.value, s.tickets[ref.value])))
      && (ref.Some? && s.tickets[ref.value].status == Pending ==>
            && r.store.tickets == s.tickets[ref.value := s.tickets[ref.value].(status := Active)]
            && r.response == Verified(ref.value, r.store.tickets[ref.value]))
      && (ref.None? || s.tickets[ref.value].status in {Cancelled, Scanned} ==>
            if Truthy(Lookup(meta, "eventId")) && Truthy(Lookup(meta, "mongoUserId")) && c.id != "" then
              && r.response == Verified(NextId(s), r.store.tickets[NextId(s)])
              && NextId(s) !in s.tickets
              && r.store.tickets == s.tickets[NextId(s) := r.response.ticket]
              && var t := r.response.ticket;
                 && t.status == Active && !t.isScanned
                 && t.eventId == meta["eventId"] && t.userId == meta["mongoUserId"] && t.clerkUserId == c.id
                 && t.tierId == OrElse(Lookup(meta, "tierId"), "unknown")
                 && t.tierName == OrElse(Lookup(meta, "tierName"), "General")
            else r == Step(s, VerifyFailed(500)))
  {
    NextIdIsFresh(s);
  }

  /** Once the session's ticket is active, repeating the call changes nothing:
      in particular after a pending ticket was activated. */
  lemma VerifyIdempotentOnceActive(s: Store, c: ClerkUser, sessionId: Option<string>, sn: Session, now: int, later: int)
    requires Invariant(s)
    requires ReferencedTicket(s.tickets, sn).Some?
    requires s.tickets[ReferencedTicket(s.tickets, sn).value].status in {Active, Pending}
    ensures var r1 := VerifySpec(s, Some(c), sessionId, Some(sn), now);
      VerifySpec(r1.store, Some(c), sessionId, Some(sn), later) == r1
  {
    var id := ReferencedTicket(s.tickets, sn).value;
    var r1 := VerifySpec(s, Some(c), sessionId, Some(sn), now);
    assert ReferencedTicket(r1.store.tickets, sn) == Some(id);
  }

  /** Without a ticket id in the metadata (as every registration sends it) the
      handler is not idempotent: two calls for one paid session create two tickets. */
  lemma VerifyWithoutTicketIdDuplicates(s: Store, c: ClerkUser, sessionId: string, sn: Session, now: int, later: int)
    requires Invariant(s)
    requires sessionId != "" && sn.paymentStatus == "paid" && Lookup(SessionMetadata(sn), "clerkUserId") == Some(c.id)
    requires "ticketId" !in SessionMetadata(sn)
    requires Truthy(Lookup(SessionMetadata(sn), "eventId")) && Truthy(Lookup(SessionMetadata(sn), "mongoUserId")) && c.id != ""
    ensures var r1 := VerifySpec(s, Some(c), Some(sessionId), Some(sn), now);
      var r2 := VerifySpec(r1.store, Some(c), Some(sessionId), Some(sn), later);
      && r1.response.Verified? && r2.response.Verified?
      && r1.response.id != r2.response.id
      && |r2.store.tickets| == |s.tickets| + 2
  {
    VerifyPaths(s, c, sessionId, sn, now);
    VerifyKeepsInvariant(s, Some(c), Some(sessionId), Some(sn), now);
    var r1 := VerifySpec(s, Some(c), Some(sessionId), Some(sn), now);
    VerifyPaths(r1.store, c, sessionId, sn, later);
    InsertTicketCount(s, r1.response.ticket);
    InsertTicketCount(r1.store, VerifySpec(r1.store, Some(c), Some(sessionId), Some(sn), later).response.ticket);
  }

  method HandleVerifyPayment(db: Database, caller: Option<ClerkUser>, sessionId: Option<string>,
                             session: Option<Session>, now: int)
    returns (response: VerifyResponse)
    requires db.Valid()
    modifies db
    ensures db.Valid()
    ensures Step(db.Snapshot(), response) == VerifySpec(old(db.Snapshot()), caller, sessionId, session, now)
  {
    VerifyKeepsInvariant(db.Snapshot(), caller, sessionId, session, now);
    if caller.None? {
      return VerifyFailed(401);
    }
    if !Truthy(sessionId) {
      return VerifyFailed(400);
    }
    if session.None? || session.value.paymentStatus != "paid" {
      return VerifyFailed(400);
    }
    var sn := session.value;
    var meta := SessionMetadata(sn);
    if Lookup(meta, "clerkUserId") != Some(caller.value.id) {
      return VerifyFailed(403);
    }
    var ticketId := Lookup(meta, "ticketId");
    if Truthy(ticketId) && ticketId.value in db.tickets {
      var t := db.tickets[ticketId.value];
      if t.status == Active {
        return Verified(ticketId.value, t);
      }
      if t.status == Pending {
        t := t.(status := Active);
        db.tickets := db.tickets[ticketId.value := t];
        return Verified(ticketId.value, t);
      }
    }
    var created := NewTicket(FallbackDraft(sn), now);
    if created.Err? {
      return VerifyFailed(500);
    }
    NewTicketStorable(FallbackDraft(sn), now);
    var id := db.AddTicket(created.value);
    return Verified(id, created.value);
  }
}

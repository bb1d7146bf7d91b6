/**
  * actions/scan.ts: `checkInTicket(ticketId, eventId)`, the organiser's
  * door check. A chain of guards in a fixed order, the first failing one
  * deciding the answer, then the ticket is marked scanned at the clock's time.
  */
module Scan {
  import opened Common
  import opened ObjectIds
  import opened UserModel
  import opened EventModel
  import opened TicketModel
  import opened DataStore

  datatype ScanError =
    | ScanUnauthorized
    | ScanEventNotFound
    | NotOrganizer
    | InvalidTicket
    | WrongEvent
    | TicketCancelled
    | AlreadyCheckedIn

  datatype ScanResponse = CheckedIn(attendeeName: string) | ScanFailed(error: ScanError)

  /** `(ticket.userId as any)?.name || "Attendee"`: the populated user's name, if
      the user still exists and the name is non-empty. */
  function AttendeeName(users: map<ObjectId, User>, userId: ObjectId): (r: string)
    ensures userId in users && users[userId].name != "" ==> r == users[userId].name
    ensures userId !in users || users[userId].name == "" ==> r == "Attendee"
  {
    if userId in users && users[userId].name != "" then users[userId].name else "Attendee"
  }

  /** The ticket after check-in. */
  function CheckedInTicket(t: Ticket, now: int): Ticket {
    t.(isScanned := true, scannedAt := Some(now), status := Scanned)
  }

  ghost function CheckInSpec(s: Store, caller: Option<ClerkUser>, ticketId: ObjectId, eventId: ObjectId, now: int)
    : Step<ScanResponse>
  {
    if caller.None? then Step(s, ScanFailed(ScanUnauthorized))
    else if eventId !in s.events then Step(s, ScanFailed(ScanEventNotFound))
    else if s.events[eventId].clerkOrganizerId != caller.value.id then Step(s, ScanFailed(NotOrganizer))
    else if ticketId !in s.tickets then Step(s, ScanFailed(InvalidTicket))
    else
      var t := s.tickets[ticketId];
      if t.eventId != eventId then Step(s, ScanFailed(WrongEvent))
      else if t.status == Cancelled then Step(s, ScanFailed(TicketCancelled))
      else if t.isScanned then Step(s, ScanFailed(AlreadyCheckedIn))
      else Step(s.(tickets := s.tickets[ticketId := CheckedInTicket(t, now)]), CheckedIn(AttendeeName(s.users, t.userId)))
  }

  lemma CheckInKeepsInvariant(s: Store, caller: Option<ClerkUser>, ticketId: ObjectId, eventId: ObjectId, now: int)
    requires Invariant(s)
    ensures Invariant(CheckInSpec(s, caller, ticketId, eventId, now).store)
  {
    var r := CheckInSpec(s, caller, ticketId, eventId, now);
    if r.response.CheckedIn? {
      RewriteKeepsInvariant(s, r.store);
    }
  }

  /** The caller is organiser of the event and the ticket is one of its
      tickets, neither cancelled nor already checked in. */
  ghost predicate Admissible(s: Store, caller: Option<ClerkUser>, ticketId: ObjectId, eventId: ObjectId) {
    && caller.Some?
    && eventId in s.events && s.events[eventId].clerkOrganizerId == caller.value.id
    && ticketId in s.tickets && s.tickets[ticketId].eventId == eventId
    && s.tickets[ticketId].status != Cancelled && !s.tickets[ticketId].isScanned
  }

  /** The check-in succeeds exactly when it is admissible; then only that ticket
      changes, to scanned at `now`, and the attendee is named. A refusal changes
      nothing. */
  lemma CheckInOutcome(s: Store, caller: Option<ClerkUser>, ticketId: ObjectId, eventId: ObjectId, now: int)
    ensures var r := CheckInSpec(s, caller, ticketId, eventId, now);
      && (r.response.CheckedIn? <==> Admissible(s, caller, ticketId, eventId))
      && (r.response.ScanFailed? ==> r.store == s)
      && (r.response.CheckedIn? ==>
            && r.store == s.(tickets := s.tickets[ticketId := r.store.tickets[ticketId]])
            && var t := r.store.tickets[ticketId];
               && t.isScanned && t.status == Scanned && t.scannedAt == Some(now)
               && t.eventId == s.tickets[ticketId].eventId && t.userId == s.tickets[ticketId].userId
               && t.tierId == s.tickets[ticketId].tierId && t.purchaseDate == s.tickets[ticketId].purchaseDate
               && r.response.attendeeName == AttendeeName(s.users, t.userId))
  {
  }

  /** The guards run in order and the first failing one answers: each error
      implies that every earlier check passed. */
  lemma CheckInErrorOrder(s: Store, caller: Option<ClerkUser>, ticketId: ObjectId, eventId: ObjectId, now: int)
    ensures var r := CheckInSpec(s, caller, ticketId, eventId, now);
      && (r.response == ScanFailed(ScanUnauthorized) <==> caller.None?)
      && (r.response == ScanFailed(ScanEventNotFound) <==> caller.Some? && eventId !in s.events)
      && (r.response == ScanFailed(NotOrganizer) <==>
            caller.Some? && eventId in s.events && s.events[eventId].clerkOrganizerId != caller.value.id)
      && (r.response == ScanFailed(InvalidTicket) <==>
            caller.Some? && eventId in s.events && s.events[eventId].clerkOrganizerId == caller.value.id
            && ticketId !in s.tickets)
      && (r.response == ScanFailed(WrongEvent) <==>
            caller.Some? && eventId in s.events && s.events[eventId].clerkOrganizerId == caller.value.id
            && ticketId in s.tickets && s.tickets[ticketId].eventId != eventId)
      && (r.response == ScanFailed(TicketCancelled) <==>
            caller.Some? && eventId in s.events && s.events[eventId].clerkOrganizerId == caller.value.id
            && ticketId in s.tickets && s.tickets[ticketId].eventId == eventId
            && s.tickets[ticketId].status == Cancelled)
      && (r.response == ScanFailed(AlreadyCheckedIn) <==>
            caller.Some? && eventId in s.events && s.events[eventId].clerkOrganizerId == caller.value.id
            && ticketId in s.tickets && s.tickets[ticketId].eventId == eventId
            && s.tickets[ticketId].status != Cancelled && s.tickets[ticketId].isScanned)
  {
  }

  /** A ticket is admitted once: checking it in again is refused and changes nothing. */
  lemma CheckInOnce(s: Store, caller: Option<ClerkUser>, ticketId: ObjectId, eventId: ObjectId, now: int, later: int)
    requires CheckInSpec(s, caller, ticketId, eventId, now).response.CheckedIn?
    ensures var s1 := CheckInSpec(s, caller, ticketId, eventId, now).store;
      CheckInSpec(s1, caller, ticketId, eventId, later) == Step(s1, ScanFailed(AlreadyCheckedIn))
  {
  }

  /** The guard tests `isScanned`, not the status, and there is no pending check:
      a pending ticket (one whose payment was never confirmed) is admitted. */
  lemma PendingTicketAdmitted(s: Store, c: ClerkUser, ticketId: ObjectId, eventId: ObjectId, now: int)
    requires Invariant(s)
    requires eventId in s.events && s.events[eventId].clerkOrganizerId == c.id
    requires ticketId in s.tickets && s.tickets[ticketId].eventId == eventId && s.tickets[ticketId].status == Pending
    ensures CheckInSpec(s, Some(c), ticketId, eventId, now).response.CheckedIn?
  {
    assert ScanConsistent(s.tickets[ticketId]);
  }

  method CheckInTicket(db: Database, caller: Option<ClerkUser>, ticketId: ObjectId, eventId: ObjectId, now: int)
    returns (response: ScanResponse)
    requires db.Valid()
    modifies db
    ensures db.Valid()
    ensures Step(db.Snapshot(), response) == CheckInSpec(old(db.Snapshot()), caller, ticketId, eventId, now)
  {
    CheckInKeepsInvariant(db.Snapshot(), caller, ticketId, eventId, now);
    if caller.None? {
      return ScanFailed(ScanUnauthorized);
    }
    if eventId !in db.events {
      return ScanFailed(ScanEventNotFound);
    }
    if db.events[eventId].clerkOrganizerId != caller.value.id {
      return ScanFailed(NotOrganizer);
    }
    if ticketId !in db.tickets {
      return ScanFailed(InvalidTicket);
    }
    var t := db.tickets[ticketId];
    if t.eventId != eventId {
      return ScanFailed(WrongEvent);
    }
    if t.status == Cancelled {
      return ScanFailed(TicketCancelled);
    }
    if t.isScanned {
      return ScanFailed(AlreadyCheckedIn);
    }
    t := t.(isScanned := true, scannedAt := Some(now), status := Scanned);
    db.tickets := db.tickets[ticketId := t];
    return CheckedIn(AttendeeName(db.users, t.userId));
  }
}

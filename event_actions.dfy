/**
  * actions/event.ts: creating an event (after the same find-or-create of the
  * caller's user document as registration), listing the caller's events,
  * and updating or deleting an event, which only its organiser may do;
  * deleting an event deletes its tickets first.
  */
module EventActions {
  import opened Common
  import opened ObjectIds
  import opened UserModel
  import opened EventModel
  import opened TicketModel
  import opened DataStore
  import opened UserActions

  datatype EventActionError =
    | EventNotSignedIn
    | OrganizerRejected(userError: UserError)
    | EventRejected(eventError: EventError)
    | NoSuchEvent
    | NotEventOrganizer

  datatype EventResponse =
    | EventSaved(id: ObjectId, event: Event)
    | EventDeleted
    | EventFailed(error: EventActionError)

  // ---------------------------------------------------------------------------
  // createEvent

  ghost function CreateEventSpec(s: Store, caller: Option<ClerkUser>, d: EventData, now: int): Step<EventResponse> {
    if caller.None? then Step(s, EventFailed(EventNotSignedIn))
    else
      var c := caller.value;
      var resolved := ResolveUserSpec(s, c, now);
      var s1 := resolved.store;
      if resolved.response.Err? then Step(s1, EventFailed(OrganizerRejected(resolved.response.error)))
      else
        match NewEvent(d, resolved.response.value, c.id, now)
        case Err(e) => Step(s1, EventFailed(EventRejected(e)))
        case Ok(ev) => Step(InsertEvent(s1, ev), EventSaved(NextId(s1), ev))
  }

  lemma CreateEventKeepsInvariant(s: Store, caller: Option<ClerkUser>, d: EventData, now: int)
    requires Invariant(s)
    ensures Invariant(CreateEventSpec(s, caller, d, now).store)
  {
    if caller.Some? {
      ResolveUserKeepsInvariant(s, caller.value, now);
      var resolved := ResolveUserSpec(s, caller.value, now);
      if resolved.response.Ok? && NewEvent(d, resolved.response.value, caller.value.id, now).Ok? {
        InsertEventKeepsInvariant(resolved.store, NewEvent(d, resolved.response.value, caller.value.id, now).value);
      }
    }
  }

  /** A created event is stored under a fresh id and records the caller as its
      organiser twice over: the user document that holds the caller's clerk id,
      and the clerk id itself; every other field is what `Event.create` stores
      for the submitted data. Tickets are never touched, and a failed call adds
      no event (though the caller's user document may have been written). */
  lemma CreateEventRecordsOrganizer(s: Store, caller: Option<ClerkUser>, d: EventData, now: int)
    requires Invariant(s)
    ensures var r := CreateEventSpec(s, caller, d, now);
      && r.store.tickets == s.tickets
      && (caller.None? ==> r.store == s)
      && (r.response.EventFailed? ==> r.store.events == s.events)
      && (r.response.EventSaved? ==>
            && caller.Some? && DataComplete(d)
            && r.response.id !in s.events
            && r.store.events == s.events[r.response.id := r.response.event]
            && var ev := r.response.event;
               && ev.clerkOrganizerId == caller.value.id
               && ev.organizerId in r.store.users
               && r.store.users[ev.organizerId].clerkId == caller.value.id
               && ev.tickets == d.tickets && ev.isPublished == (d.isPublished == Some(true))
               && ev == NewEvent(d, ev.organizerId, caller.value.id, now).value)
  {
    if caller.Some? {
      ResolveUserBindsCaller(s, caller.value, now);
      ResolveUserKeepsInvariant(s, caller.value, now);
      NextIdIsFresh(ResolveUserSpec(s, caller.value, now).store);
    }
  }

  method CreateEvent(db: Database, caller: Option<ClerkUser>, d: EventData, now: int) returns (response: EventResponse)
    requires db.Valid()
    modifies db
    ensures db.Valid()
    ensures Step(db.Snapshot(), response) == CreateEventSpec(old(db.Snapshot()), caller, d, now)
  {
    CreateEventKeepsInvariant(db.Snapshot(), caller, d, now);
    if caller.None? {
      return EventFailed(EventNotSignedIn);
    }
    var c := caller.value;
    var resolved := ResolveUser(db, c, now);
    if resolved.Err? {
      return EventFailed(OrganizerRejected(resolved.error));
    }
    var created := NewEvent(d, resolved.value, c.id, now);
    if created.Err? {
      return EventFailed(EventRejected(created.error));
    }
    var id := MintId(db.minted);
    db.events := db.events[id := created.value];
    db.minted := db.minted + 1;
    return EventSaved(id, created.value);
  }

  // ---------------------------------------------------------------------------
  // getEventsByUser

  datatype ListError = ListUnauthorized

  /** `Event.find({clerkOrganizerId}).sort({createdAt: -1})`: every event the
      caller organises, once each, newest first. */
  method GetEventsByUser(db: Database, caller: Option<ClerkUser>) returns (r: Result<seq<ObjectId>, ListError>)
    ensures caller.None? <==> r.Err?
    ensures r.Ok? ==> forall i :: 0 <= i < |r.value| ==>
                        r.value[i] in db.events && db.events[r.value[i]].clerkOrganizerId == caller.value.id
    ensures r.Ok? ==> forall id :: id in db.events && db.events[id].clerkOrganizerId == caller.value.id ==> id in r.value
    ensures r.Ok? ==> forall i, j :: 0 <= i < j < |r.value| ==> r.value[i] != r.value[j]
    ensures r.Ok? ==> forall i, j :: 0 <= i < j < |r.value| ==>
                        db.events[r.value[i]].createdAt >= db.events[r.value[j]].createdAt
  {
    if caller.None? {
      return Err(ListUnauthorized);
    }
    var clerkId := caller.value.id;
    var ids := FindSorted(db.events, (ev: Event) => ev.clerkOrganizerId == clerkId, (ev: Event) => ev.createdAt);
    return Ok(ids);
  }

  // ---------------------------------------------------------------------------
  // updateEvent and deleteEvent

  /** The shared guards: signed in, the event exists, the caller organises it. */
  ghost function OrganizerGuard(s: Store, caller: Option<ClerkUser>, eventId: ObjectId): Option<EventActionError> {
    if caller.None? then Some(EventNotSignedIn)
    else if eventId !in s.events then Some(NoSuchEvent)
    else if s.events[eventId].clerkOrganizerId != caller.value.id then Some(NotEventOrganizer)
    else None
  }

  ghost function UpdateEventSpec(s: Store, caller: Option<ClerkUser>, eventId: ObjectId, d: EventData): Step<EventResponse> {
    match OrganizerGuard(s, caller, eventId)
    case Some(e) => Step(s, EventFailed(e))
    case None =>
      match UpdatedEvent(s.events[eventId], d)
      case Err(e) => Step(s, EventFailed(EventRejected(e)))
      case Ok(ev) => Step(s.(events := s.events[eventId := ev]), EventSaved(eventId, ev))
  }

  /** The tickets that survive deleting event `eventId`. */
  function TicketsNotOf(tickets: map<ObjectId, Ticket>, eventId: ObjectId): (r: map<ObjectId, Ticket>)
    ensures forall id :: id in r <==> id in tickets && tickets[id].eventId != eventId
    ensures forall id :: id in r ==> r[id] == tickets[id]
  {
    map id | id in tickets && tickets[id].eventId != eventId :: tickets[id]
  }

  ghost function DeleteEventSpec(s: Store, caller: Option<ClerkUser>, eventId: ObjectId): Step<EventResponse> {
    match OrganizerGuard(s, caller, eventId)
    case Some(e) => Step(s, EventFailed(e))
    case None =>
      Step(s.(tickets := TicketsNotOf(s.tickets, eventId), events := s.events - {eventId}), EventDeleted)
  }

  lemma UpdateEventKeepsInvariant(s: Store, caller: Option<ClerkUser>, eventId: ObjectId, d: EventData)
    requires Invariant(s)
    ensures Invariant(UpdateEventSpec(s, caller, eventId, d).store)
  {
    if UpdateEventSpec(s, caller, eventId, d).response.EventSaved? {
      RewriteKeepsInvariant(s, UpdateEventSpec(s, caller, eventId, d).store);
    }
  }

  lemma DeleteEventKeepsInvariant(s: Store, caller: Option<ClerkUser>, eventId: ObjectId)
    requires Invariant(s)
    ensures Invariant(DeleteEventSpec(s, caller, eventId).store)
  {
    if OrganizerGuard(s, caller, eventId).None? {
      RewriteKeepsInvariant(s, DeleteEventSpec(s, caller, eventId).store);
    }
  }

  /** Only the organiser gets past the guards; anyone else, or a missing event,
      leaves the store unchanged. A successful update replaces that one event
      with the submitted fields (as `UpdatedEvent` states them), keeping its organiser. */
  lemma UpdateEventOutcome(s: Store, caller: Option<ClerkUser>, eventId: ObjectId, d: EventData)
    ensures var r := UpdateEventSpec(s, caller, eventId, d);
      && (r.response.EventFailed? ==> r.store == s)
      && (r.response.EventSaved? <==>
            caller.Some? && eventId in s.events && s.events[eventId].clerkOrganizerId == caller.value.id && DataComplete(d))
      && (r.response.EventSaved? ==>
            && r.store == s.(events := s.events[eventId := r.response.event])
            && r.response.event.clerkOrganizerId == caller.value.id
            && r.response.event.organizerId == s.events[eventId].organizerId
            && r.response.event.title == d.title && r.response.event.tickets == d.tickets
            && r.response.event == UpdatedEvent(s.events[eventId], d).value)
  {
  }

  /** Deleting is allowed exactly to the organiser of an existing event. It
      removes that event and precisely the tickets of that event: every other
      event and every ticket of another event stays as it was, and no remaining
      ticket refers to the deleted event. */
  lemma DeleteEventCascades(s: Store, caller: Option<ClerkUser>, eventId: ObjectId)
    ensures var r := DeleteEventSpec(s, caller, eventId);
      && (r.response.EventFailed? ==> r.store == s)
      && (r.response == EventDeleted <==>
            caller.Some? && eventId in s.events && s.events[eventId].clerkOrganizerId == caller.value.id)
      && (r.response == EventDeleted ==>
            && r.store.users == s.users
            && eventId !in r.store.events
            && (forall id :: id in s.events && id != eventId ==> id in r.store.events && r.store.events[id] == s.events[id])
            && (forall id :: id in r.store.tickets ==> r.store.tickets[id].eventId != eventId)
            && (forall id :: id in s.tickets && s.tickets[id].eventId != eventId ==>
                  id in r.store.tickets && r.store.tickets[id] == s.tickets[id])
            && (forall id :: id in r.store.tickets ==> id in s.tickets))
  {
  }

  method UpdateEvent(db: Database, caller: Option<ClerkUser>, eventId: ObjectId, d: EventData)
    returns (response: EventResponse)
    requires db.Valid()
    modifies db
    ensures db.Valid()
    ensures Step(db.Snapshot(), response) == UpdateEventSpec(old(db.Snapshot()), caller, eventId, d)
  {
    UpdateEventKeepsInvariant(db.Snapshot(), caller, eventId, d);
    if caller.None? {
      return EventFailed(EventNotSignedIn);
    }
    if eventId !in db.events {
      return EventFailed(NoSuchEvent);
    }
    if db.events[eventId].clerkOrganizerId != caller.value.id {
      return EventFailed(NotEventOrganizer);
    }
    var updated := UpdatedEvent(db.events[eventId], d);
    if updated.Err? {
      return EventFailed(EventRejected(updated.error));
    }
    db.events := db.events[eventId := updated.value];
    return EventSaved(eventId, updated.value);
  }

  method DeleteEvent(db: Database, caller: Option<ClerkUser>, eventId: ObjectId) returns (response: EventResponse)
    requires db.Valid()
    modifies db
    ensures db.Valid()
    ensures Step(db.Snapshot(), response) == DeleteEventSpec(old(db.Snapshot()), caller, eventId)
  {
    DeleteEventKeepsInvariant(db.Snapshot(), caller, eventId);
    if caller.None? {
      return EventFailed(EventNotSignedIn);
    }
    if eventId !in db.events {
      return EventFailed(NoSuchEvent);
    }
    if db.events[eventId].clerkOrganizerId != caller.value.id {
      return EventFailed(NotEventOrganizer);
    }
    db.tickets := TicketsNotOf(db.tickets, eventId);
    db.events := db.events - {eventId};
    return EventDeleted;
  }
}

/**
  * actions/queries.ts: the read side. Listing events by category, one event
  * by id, and the caller's events; every event read is passed through the
  * backward-compatibility step that gives a legacy event (no tiers, a
  * top-level price) a single "General Admission" tier.
  */
module Queries {
  import opened Common
  import opened ObjectIds
  import opened EventModel
  import opened DataStore

  /** An event as a query returns it, with its id. */
  datatype Listed = Listed(id: ObjectId, event: Event)

  const LegacyTierId := "legacy"
  const LegacyTierName := "General Admission"
  const LegacyCapacity := 100

  /** The legacy backfill: an event without tiers whose `price` is defined gets
      one tier at that price, with the legacy capacity or 100 (also when the
      capacity is 0, since `||` treats 0 as missing). Nothing else changes. */
  function WithLegacyTier(ev: Event): (r: Event)
    ensures r == ev.(tickets := r.tickets)
    ensures |ev.tickets| == 0 && ev.price.Some? ==>
              r.tickets == [Tier(LegacyTierId, LegacyTierName, ev.price.value, OrNumber(ev.capacity, LegacyCapacity))]
    ensures |ev.tickets| > 0 || ev.price.None? ==> r == ev
    ensures |r.tickets| > 0 || ev.price.None?
  {
    if |ev.tickets| == 0 && ev.price.Some? then
      ev.(tickets := [Tier(LegacyTierId, LegacyTierName, ev.price.value, OrNumber(ev.capacity, LegacyCapacity))])
    else ev
  }

  /** Backfilling twice is backfilling once. */
  lemma WithLegacyTierIdempotent(ev: Event)
    ensures WithLegacyTier(WithLegacyTier(ev)) == WithLegacyTier(ev)
  {
  }

  /** A legacy capacity of 0 is read as 100. */
  lemma LegacyZeroCapacityReadAs100(ev: Event)
    requires |ev.tickets| == 0 && ev.price.Some? && ev.capacity == Some(0)
    ensures WithLegacyTier(ev).tickets[0].capacity == 100
  {
  }

  /** `parsedEvents.forEach(ev => { ... ev.tickets = [...] })` on the copied list. */
  method BackfillLegacyTiers(a: array<Listed>)
    modifies a
    ensures forall i :: 0 <= i < a.Length ==> a[i] == old(a[i]).(event := WithLegacyTier(old(a[i]).event))
  {
    var i := 0;
    while i < a.Length
      invariant 0 <= i <= a.Length
      invariant forall k :: 0 <= k < i ==> a[k] == old(a[k]).(event := WithLegacyTier(old(a[k]).event))
      invariant forall k :: i <= k < a.Length ==> a[k] == old(a[k])
    {
      var ev := a[i].event;
      if |ev.tickets| == 0 && ev.price.Some? {
        a[i] := a[i].(event := ev.(tickets := [Tier(LegacyTierId, LegacyTierName, ev.price.value,
                                                    OrNumber(ev.capacity, LegacyCapacity))]));
      }
      i := i + 1;
    }
  }

  /** The found documents, in the found order, copied into a fresh array and backfilled. */
  method CopyAndBackfill(events: map<ObjectId, Event>, ids: seq<ObjectId>) returns (r: seq<Listed>)
    requires forall i :: 0 <= i < |ids| ==> ids[i] in events
    ensures |r| == |ids|
    ensures forall i :: 0 <= i < |r| ==> r[i] == Listed(ids[i], WithLegacyTier(events[ids[i]]))
  {
    var a := new Listed[|ids|](i requires 0 <= i < |ids| => Listed(ids[i], events[ids[i]]));
    BackfillLegacyTiers(a);
    return a[..];
  }

  /** `category && category !== "All"` adds a category filter. */
  predicate InCategory(category: Option<string>, ev: Event) {
    Truthy(category) && category.value != "All" ==> ev.category == category.value
  }

  /** `getEvents(undefined, category)`: the events of the category (all of them
      for "All" or no category), once each, earliest start first, backfilled. */
  method GetEvents(db: Database, category: Option<string>) returns (r: seq<Listed>)
    ensures forall i :: 0 <= i < |r| ==>
              r[i].id in db.events && InCategory(category, db.events[r[i].id])
              && r[i].event == WithLegacyTier(db.events[r[i].id])
    ensures forall id :: id in db.events && InCategory(category, db.events[id]) ==> exists i :: 0 <= i < |r| && r[i].id == id
    ensures forall i, j :: 0 <= i < j < |r| ==> r[i].id != r[j].id
    ensures forall i, j :: 0 <= i < j < |r| ==> db.events[r[i].id].startDate <= db.events[r[j].id].startDate
  {
    var ids := FindSorted(db.events, (ev: Event) => InCategory(category, ev), (ev: Event) => -ev.startDate);
    r := CopyAndBackfill(db.events, ids);
    forall id | id in db.events && InCategory(category, db.events[id])
      ensures exists i :: 0 <= i < |r| && r[i].id == id
    {
      var i :| 0 <= i < |ids| && ids[i] == id;
      assert r[i].id == id;
    }
  }

  /** `getMyEvents()`: nothing without a caller; otherwise the caller's events,
      once each, newest first, backfilled. */
  method GetMyEvents(db: Database, caller: Option<ClerkUser>) returns (r: seq<Listed>)
    ensures caller.None? ==> r == []
    ensures forall i :: 0 <= i < |r| ==>
              r[i].id in db.events && db.events[r[i].id].clerkOrganizerId == caller.value.id
              && r[i].event == WithLegacyTier(db.events[r[i].id])
    ensures caller.Some? ==> forall id :: id in db.events && db.events[id].clerkOrganizerId == caller.value.id ==>
              exists i :: 0 <= i < |r| && r[i].id == id
    ensures forall i, j :: 0 <= i < j < |r| ==> r[i].id != r[j].id
    ensures forall i, j :: 0 <= i < j < |r| ==> db.events[r[i].id].createdAt >= db.events[r[j].id].createdAt
  {
    if caller.None? {
      return [];
    }
    var clerkId := caller.value.id;
    var ids := FindSorted(db.events, (ev: Event) => ev.clerkOrganizerId == clerkId, (ev: Event) => ev.createdAt);
    r := CopyAndBackfill(db.events, ids);
    forall id | id in db.events && db.events[id].clerkOrganizerId == clerkId
      ensures exists i :: 0 <= i < |r| && r[i].id == id
    {
      var i :| 0 <= i < |ids| && ids[i] == id;
      assert r[i].id == id;
    }
  }

  /** `getEventById(id)`: null unless the id is 24 hexadecimal characters naming
      a stored event, which is then returned backfilled. */
  function GetEventById(events: map<ObjectId, Event>, id: string): (r: Option<Event>)
    ensures r.Some? <==> IsObjectIdText(id) && id in events
    ensures r.Some? ==> r.value == WithLegacyTier(events[id])
  {
    if !IsObjectIdText(id) then None
    else if id !in events then None
    else Some(WithLegacyTier(events[id]))
  }

  /** Every event the model creates (below 16^24 of them) is found by its id. */
  lemma CreatedEventFoundById(events: map<ObjectId, Event>, n: nat)
    requires n < Pow16(24) && MintId(n) in events
    ensures GetEventById(events, MintId(n)) == Some(WithLegacyTier(events[MintId(n)]))
  {
    MintedIdPassesFormatCheck(n);
  }
}

/**
  * The `Event` collection: an event with a list of ticket tiers, optional
  * legacy top-level `price` and `capacity`, `isPublished` defaulting to false,
  * and the organiser recorded twice (database user id and Clerk id).
  * Money is in integer cents; dates are clock values.
  */
module EventModel {
  import opened Common
  import opened ObjectIds

  datatype Tier = Tier(id: string, name: string, price: int, capacity: int)

  datatype Event = Event(
    title: string,
    description: string,
    location: string,
    startDate: int,
    endDate: int,
    imageUrls: seq<string>,
    tickets: seq<Tier>,
    price: Option<int>,
    capacity: Option<int>,
    isPublished: bool,
    category: string,
    organizerId: ObjectId,
    clerkOrganizerId: string,
    createdAt: int)

  /** The fields a form submits to `createEvent` / `updateEvent`. The edit form
      has no `isPublished` field, hence the option. */
  datatype EventData = EventData(
    title: string,
    description: string,
    location: string,
    startDate: int,
    endDate: int,
    imageUrls: seq<string>,
    tickets: seq<Tier>,
    category: string,
    isPublished: Option<bool>)

  datatype EventError = EventFieldMissing

  /** Every tier subdocument needs a non-empty `id` and `name` (price and capacity are numbers and always present). */
  predicate TiersComplete(tiers: seq<Tier>) {
    forall i :: 0 <= i < |tiers| ==> tiers[i].id != "" && tiers[i].name != ""
  }

  /** The schema's required checks on the fields a form can set. */
  predicate DataComplete(d: EventData) {
    d.title != "" && d.description != "" && d.location != "" && d.category != "" && TiersComplete(d.tickets)
  }

  /** `Event.create({...data, organizerId, clerkOrganizerId})`: validated, with
      `isPublished` defaulting to false, no legacy price/capacity, `createdAt` the clock. */
  function NewEvent(d: EventData, organizerId: ObjectId, clerkOrganizerId: string, now: int)
    : (r: Result<Event, EventError>)
    ensures r.Ok? <==> DataComplete(d) && organizerId != "" && clerkOrganizerId != ""
    ensures r.Ok? ==> r.value.organizerId == organizerId && r.value.clerkOrganizerId == clerkOrganizerId
    ensures r.Ok? ==> r.value.isPublished == (d.isPublished == Some(true))
    ensures r.Ok? ==> r.value.tickets == d.tickets && r.value.price.None? && r.value.capacity.None?
    ensures r.Ok? ==> && r.value.title == d.title && r.value.description == d.description
                      && r.value.location == d.location && r.value.category == d.category
                      && r.value.startDate == d.startDate && r.value.endDate == d.endDate
                      && r.value.imageUrls == d.imageUrls && r.value.createdAt == now
  {
    if !DataComplete(d) || organizerId == "" || clerkOrganizerId == "" then Err(EventFieldMissing)
    else
      Ok(Event(d.title, d.description, d.location, d.startDate, d.endDate, d.imageUrls, d.tickets,
               None, None, if d.isPublished.Some? then d.isPublished.value else false,
               d.category, organizerId, clerkOrganizerId, now))
  }

  /** `findByIdAndUpdate(id, {...data}, {runValidators: true})`: the submitted
      fields replace the stored ones when they pass the required checks;
      `isPublished` changes only when submitted; organiser, legacy fields and
      `createdAt` are kept. */
  function UpdatedEvent(ev: Event, d: EventData): (r: Result<Event, EventError>)
    ensures r.Ok? <==> DataComplete(d)
    ensures r.Ok? ==> r.value.organizerId == ev.organizerId && r.value.clerkOrganizerId == ev.clerkOrganizerId
    ensures r.Ok? ==> r.value.createdAt == ev.createdAt && r.value.price == ev.price && r.value.capacity == ev.capacity
    ensures r.Ok? ==> r.value.tickets == d.tickets && r.value.title == d.title
    ensures r.Ok? ==> && r.value.description == d.description && r.value.location == d.location
                      && r.value.category == d.category
                      && r.value.startDate == d.startDate && r.value.endDate == d.endDate
                      && r.value.imageUrls == d.imageUrls
    ensures r.Ok? && d.isPublished.None? ==> r.value.isPublished == ev.isPublished
    ensures r.Ok? && d.isPublished.Some? ==> r.value.isPublished == d.isPublished.value
  {
    if !DataComplete(d) then Err(EventFieldMissing)
    else
      Ok(ev.(title := d.title, description := d.description, location := d.location,
             startDate := d.startDate, endDate := d.endDate, imageUrls := d.imageUrls,
             tickets := d.tickets, category := d.category,
             isPublished := if d.isPublished.Some? then d.isPublished.value else ev.isPublished))
  }
}

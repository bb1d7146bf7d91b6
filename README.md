# Eventora ticketing core in Dafny

This project models the server side of Eventora, an event-ticketing web
application. It covers:

- the three MongoDB collections (users, events and tickets) and the server
  actions and route handlers that read and write them;
- the two event forms whose validators and list edits decide what reaches
  those actions.

The model follows the TypeScript code as written. It is not the idealised
pending-ticket design one might expect from a payment flow. Several
differences matter, and the model proves them:

- **No pending tickets.** Registration never creates a pending ticket.
  - A free tier inserts an active ticket at once.
  - A paid tier only builds a Stripe Checkout request. Its metadata has no
    `ticketId` and no `tierPrice`.
- **The webhook fulfils every delivery.** The webhook inserts one active
  ticket for each delivery of `checkout.session.completed`, so a redelivery
  inserts another.
- **Verify-payment rarely activates anything.** The payment-verification
  route activates a pending ticket only when the metadata names one. No
  operation produces such a ticket. Otherwise it creates one more active
  ticket. So if verify-payment is called with a session the webhook has
  already fulfilled, the payment is fulfilled twice. Nothing in the code makes
  that call after registration (see the last point).
- **Nothing deduplicates.** No registration is deduplicated, and the ticket
  indexes are not unique.
- **Strict mode drops payment fields.** The ticket schema's status enum has
  no `pending`, and the schema declares no `amount` or `paymentId`. Mongoose
  strict mode therefore drops the payment fields verify-payment writes.
- **Registration never reaches verify-payment.** Registration's
  `success_url` is the tickets page, with no session id
  (`TicketActions.RegisterPaidTierCheckout`). The payment-verification route
  needs a session id, so registration's flow never reaches it.

## How the model is organised

- **Ids (`object_ids.dfy`).** A fresh ObjectId is `MintId(n)`: the counter
  `n` in hexadecimal, padded to 24 characters. The lemmas prove that minted
  ids are distinct and that they pass `getEventById`'s 24-hex check.
- **The store (`data_store.dfy`).**
  - `Store` is the immutable value of the three collections plus the id
    counter.
  - `Database` is the class the actions mutate.
  - `Invariant` is what every action keeps:
    - fresh ids are unused and no id is empty;
    - the user indexes on `clerkId` and `email` are unique;
    - every stored ticket has its required fields and agreeing scan fields.
- **The actions.** Each action has two parts:
  - a spec function `XSpec(s, ...)` that returns the new store and the
    response;
  - a method `X(db, ...)` that performs the same steps on a `Database`. Its
    `ensures` ties the new state and the response to `XSpec` on the old
    state.

  The lemmas beside each spec state what the source promises.
- **The forms and queries.** These are functions on values, except for the
  in-place steps, which stay in place:
  - `removeImage` splices a copied array;
  - the legacy-tier `forEach` backfills an array.
- **Sequences of requests (`scenarios.dfy`).** This file quantifies over
  arbitrary sequences of requests. It proves that:
  - the invariant holds throughout;
  - no ticket changes holder or tier;
  - a scanned or cancelled ticket never changes again;
  - no ticket ever becomes pending.

The webhook's signature check, the Stripe session, the Clerk caller and the
clock are inputs. The caller is `Option<ClerkUser>`.

## Model

| member | source | states |
|---|---|---|
| TicketModel.NewTicket | models/Ticket.ts:15-25 | `Ticket.create` succeeds exactly when the five required fields are non-empty and the status is in the enum. On success the status defaults to active, the ticket is unscanned with no `scannedAt`, and the purchase date is the clock. |
| TicketModel.NewTicketStorable | models/Ticket.ts:20-22 | A created ticket satisfies the stored-ticket invariant exactly when the draft did not ask for the scanned status. |
| TicketModel.StrictSchemaDropsPaymentFields | models/Ticket.ts:15-25 | `amount` and `paymentId` never change what `Ticket.create` stores, because the schema does not declare them. |
| UserModel.NewUser | models/User.ts:12-19 | `User.create` succeeds exactly when clerk id, email and name are non-empty. The role defaults to user. |
| UserModel.WriteKeepsIndexesUnique | models/User.ts:13-14 | A write that duplicates no other document's clerk id or email keeps both unique indexes. |
| UserModel.ClerkIdDeterminesUser | models/User.ts:13 | Under the unique index, one clerk id names at most one user. |
| UserModel.EmailDeterminesUser | models/User.ts:14 | Under the unique index, one email names at most one user. |
| UserModel.UniqueClerkIdsUnique | models/User.ts:13 | Under the unique index, a user holding a clerk id is the only one holding it. |
| UserModel.FindByClerkId | actions/tickets.ts:31 | `findOne({clerkId})` returns a holder of the clerk id, or none when nobody holds it. |
| UserModel.FindByEmail | actions/tickets.ts:34 | `findOne({email})` returns a holder of the email, or none when nobody holds it. |
| EventModel.NewEvent | models/Event.ts:25-45 | `Event.create` succeeds exactly when the required strings and every tier's id and name are non-empty and an organiser is given. The stored event has the submitted title, description, location, dates, images, category and tiers, and records both organiser fields. `createdAt` is the clock, `isPublished` defaults to false, and there is no legacy price or capacity. |
| EventModel.UpdatedEvent | actions/event.ts:101-105 | `findByIdAndUpdate` with validators succeeds exactly when the submitted fields pass the required checks. Title, description, location, dates, images, category and tiers become the submitted values. `isPublished` becomes the submitted value when given and is kept otherwise. The organiser, `createdAt` and the legacy fields are kept. |
| ObjectIds.MintIdInjective | models/Ticket.ts:15 | Distinct counters give distinct ObjectIds. |
| ObjectIds.MintedIdPassesFormatCheck | actions/queries.ts:51 | Every minted ObjectId is 24 hexadecimal characters. |
| DataStore.EmptyInvariant | models/Ticket.ts:15-31 | An empty database satisfies the invariant. |
| DataStore.InsertTicket | app/api/webhook/stripe/route.ts:39-46 | An insert adds exactly the next id to the ticket keys. |
| DataStore.NextIdIsFresh | models/Ticket.ts:15 | Under the invariant, the next id names no user, event or ticket and is non-empty. |
| DataStore.InsertTicketKeepsInvariant | app/api/webhook/stripe/route.ts:39-46 | Inserting a complete, scan-consistent ticket keeps the invariant. |
| DataStore.InsertTicketCount | app/api/webhook/stripe/route.ts:39-46 | An insert adds exactly one ticket. |
| DataStore.InsertEventKeepsInvariant | actions/event.ts:44-48 | Inserting an event keeps the invariant. |
| DataStore.InsertUserKeepsInvariant | actions/tickets.ts:39-44 | Inserting a user that clashes with no unique key keeps the invariant. |
| DataStore.RewriteKeepsInvariant | actions/scan.ts:40-43 | Rewriting or deleting documents keeps the invariant when the users stay unique and every ticket stays complete and scan-consistent. |
| DataStore.Database.AddTicket | app/api/verify-payment/route.ts:58-68 | The database's insert stores the ticket under the next id and advances the counter. |
| DataStore.FindSorted | actions/event.ts:71 | `find(filter).sort({key: -1})` returns every matching id exactly once, and only those, in non-increasing key order. |
| Common.Lookup | app/api/webhook/stripe/route.ts:28-33 | Reading a metadata key gives its value exactly when the key is present, and undefined otherwise. |
| Common.OrElse | app/api/verify-payment/route.ts:63-64 | A string default (JavaScript `or`) keeps a defined non-empty value and otherwise gives the fallback. |
| Common.OrNumber | actions/queries.ts:69 | A number default (JavaScript `or`) keeps a defined non-zero value and otherwise gives the fallback, so 0 is replaced too. |
| Common.TrimIsWhitespaceFreeSlice | actions/user.ts:21 | `trim` returns a contiguous slice of its input, removes only whitespace, and leaves none at either end. |
| Common.TrimIdempotent | actions/user.ts:21 | Trimming twice is trimming once. |
| UserActions.SyncUserKeepsInvariant | actions/user.ts:7-28 | The upsert keeps the invariant, including the unique indexes. |
| UserActions.SyncUserOutcome | actions/user.ts:7-28 | With no caller the result is null and nothing changes. A successful upsert stores the first email and the trimmed name, and leaves exactly one user with the caller's clerk id. Only the users collection changes. |
| UserActions.SyncUserIdempotent | actions/user.ts:16-25 | Repeating a successful sync with the same Clerk data changes nothing and returns the same user. |
| UserActions.SyncNameIsTrimmed | actions/user.ts:21 | The stored name never starts or ends with whitespace. |
| UserActions.SyncUser | actions/user.ts:7-28 | The method's new state and response are those of the upsert's specification, and it keeps the invariant. |
| UserActions.ResolveUserKeepsInvariant | actions/tickets.ts:29-46 | The find, rebind or create of the caller's user keeps the invariant. |
| UserActions.RebindKeepsIndexesUnique | actions/tickets.ts:35-37 | Rebinding a user found by email to a clerk id nobody holds keeps both indexes unique. |
| UserActions.ResolveUserBindsCaller | actions/tickets.ts:29-46 | After a successful resolution exactly one user holds the caller's clerk id, and it is the returned one. Resolution fails only when the document it would save lacks a required field, and a failure changes nothing. Events and tickets are never touched. |
| UserActions.ResolveUserStable | actions/event.ts:22-24 | Once a user holds the caller's clerk id, resolution returns it and changes nothing. |
| UserActions.ResolveUser | actions/event.ts:22-42 | The method's new state and result are those of the resolution's specification. |
| TicketActions.CurrentHost | actions/tickets.ts:73 | The host is the configured app URL, else localhost in development. It is empty exactly when neither applies. |
| TicketActions.CheckoutMetadata | actions/tickets.ts:86-92 | The checkout metadata holds exactly `eventId`, `clerkUserId`, `mongoUserId`, `tierId` and `tierName`, with the given values. |
| TicketActions.RegisterKeepsInvariant | actions/tickets.ts:14-117 | Registration keeps the invariant. |
| TicketActions.RegisterCreatesNoTicketUnlessFree | actions/tickets.ts:21-52 | With no caller nothing changes. Events never change. A paid tier, a missing event or any failure adds no ticket. |
| TicketActions.RegisterFreeTierIssuesTicket | actions/tickets.ts:54-69 | A free tier with a resolvable caller and an existing event adds exactly one active, unscanned ticket. The ticket is for the resolved user and the given tier, and the caller is sent to "/dashboard/tickets". |
| TicketActions.RegisterTwiceTwoTickets | actions/tickets.ts:57-64 | Registering twice for the same free tier adds two tickets: nothing deduplicates. |
| TicketActions.RegisterPaidTierCheckout | actions/tickets.ts:72-112 | A paid tier adds no ticket. It succeeds exactly when the user resolves, the event exists, a host is known and Stripe returns a non-empty URL. The caller then gets that URL. The checkout returns the buyer to `<host>/dashboard/tickets?success=true`, which carries no session id. It charges the price in cents, with the caller as client reference and the five metadata keys. |
| TicketActions.RegisterForEvent | actions/tickets.ts:14-117 | The method's new state and response are those of registration's specification, and it keeps the invariant. |
| TicketActions.GetUserTickets | actions/tickets.ts:119-148 | Without a caller the result is an error. Otherwise it returns exactly the caller's active tickets, once each, newest purchase first. |
| Webhook.FulfilmentDraftValid | app/api/webhook/stripe/route.ts:28-46 | With all five metadata values present, the fulfilment ticket always passes the schema. |
| Webhook.WebhookKeepsInvariant | app/api/webhook/stripe/route.ts:7-56 | The webhook keeps the invariant. |
| Webhook.WebhookOutcome | app/api/webhook/stripe/route.ts:7-56 | The webhook never touches users, events or existing tickets. A bad signature gives 400, another event type 200, missing metadata 400 and a store failure 500, and none of them changes anything. Otherwise it returns 200 with exactly one new active ticket carrying the metadata's values. |
| Webhook.WebhookRedeliveryDuplicates | app/api/webhook/stripe/route.ts:39-46 | Delivering the same completed event twice inserts two active tickets for the same event, user and tier. |
| Webhook.HandleWebhook | app/api/webhook/stripe/route.ts:7-56 | The method's new state and status are those of the webhook's specification, and it keeps the invariant. |
| VerifyPayment.AmountOf | app/api/verify-payment/route.ts:65 | The amount comes from `tierPrice` exactly when the metadata has a non-empty one, else from the session total. |
| VerifyPayment.ReferencedTicket | app/api/verify-payment/route.ts:40-43 | The metadata's `ticketId` is used only when it is non-empty and names a stored ticket. |
| VerifyPayment.VerifyKeepsInvariant | app/api/verify-payment/route.ts:10-78 | Payment verification keeps the invariant. |
| VerifyPayment.VerifyGuards | app/api/verify-payment/route.ts:12-35 | The guards run in order: no caller 401, no session id 400, an unpaid or missing session 400, someone else's session 403. None of them changes the store. A success implies every guard passed. |
| VerifyPayment.VerifyPaths | app/api/verify-payment/route.ts:40-68 | Past the guards there are three paths. An active referenced ticket is returned unchanged. A pending one becomes active and nothing else changes. Otherwise one new active ticket is created with tier defaults "unknown" and "General", or the result is 500 when the event or user id is missing. |
| VerifyPayment.VerifyIdempotentOnceActive | app/api/verify-payment/route.ts:44-54 | Once the referenced ticket is active or pending, repeating the call changes nothing more. |
| VerifyPayment.VerifyWithoutTicketIdDuplicates | app/api/verify-payment/route.ts:58-68 | Without a `ticketId`, two calls for one paid session create two tickets. |
| VerifyPayment.HandleVerifyPayment | app/api/verify-payment/route.ts:10-78 | The method's new state and response are those of the handler's specification, and it keeps the invariant. |
| Scan.AttendeeName | actions/scan.ts:50 | The attendee is the ticket user's non-empty name, else "Attendee". |
| Scan.CheckInKeepsInvariant | actions/scan.ts:9-56 | Check-in keeps the invariant. |
| Scan.CheckInOutcome | actions/scan.ts:9-56 | Check-in succeeds exactly when the caller organises the event and the ticket is one of its tickets, neither cancelled nor already scanned. Only that ticket then changes: it becomes scanned at the clock, with holder and tier kept. A refusal changes nothing. |
| Scan.CheckInErrorOrder | actions/scan.ts:12-37 | Each error is returned exactly when every earlier check passed and its own check fails. |
| Scan.CheckInOnce | actions/scan.ts:35-37 | A second check-in of the same ticket is refused with "already checked in" and changes nothing. |
| Scan.PendingTicketAdmitted | actions/scan.ts:31-37 | The guard tests `isScanned` and not the status, so a pending ticket of the event is admitted. |
| Scan.CheckInTicket | actions/scan.ts:9-56 | The method's new state and response are those of check-in's specification, and it keeps the invariant. |
| EventActions.CreateEventKeepsInvariant | actions/event.ts:8-59 | Creating an event keeps the invariant. |
| EventActions.CreateEventRecordsOrganizer | actions/event.ts:22-48 | With no caller nothing changes, and tickets never change. A failure adds no event. A created event gets a fresh id, is the document `NewEvent` describes for the submitted data, and records the caller both as the user holding its clerk id and as the clerk id itself. |
| EventActions.CreateEvent | actions/event.ts:8-59 | The method's new state and response are those of creation's specification, and it keeps the invariant. |
| EventActions.GetEventsByUser | actions/event.ts:61-78 | Without a caller the result is an error. Otherwise it returns exactly the caller's events, once each, newest first. |
| EventActions.TicketsNotOf | actions/event.ts:139-141 | `deleteMany({eventId})` keeps exactly the tickets of other events, unchanged. |
| EventActions.UpdateEventKeepsInvariant | actions/event.ts:80-117 | Updating keeps the invariant. |
| EventActions.DeleteEventKeepsInvariant | actions/event.ts:119-154 | Deleting keeps the invariant. |
| EventActions.UpdateEventOutcome | actions/event.ts:80-117 | An update succeeds exactly for the organiser of an existing event with complete data. It replaces only that event, with the updated document `UpdatedEvent` describes, and keeps its organiser. Any failure changes nothing. |
| EventActions.DeleteEventCascades | actions/event.ts:119-154 | A delete succeeds exactly for the organiser of an existing event. It removes that event and precisely its tickets, leaves other events, other tickets and users as they were, and any failure changes nothing. |
| EventActions.UpdateEvent | actions/event.ts:80-117 | The method's new state and response are those of the update's specification, and it keeps the invariant. |
| EventActions.DeleteEvent | actions/event.ts:119-154 | The method's new state and response are those of the delete's specification, and it keeps the invariant. |
| Queries.WithLegacyTier | actions/queries.ts:64-71 | An event with no tiers and a price gets exactly one tier: "legacy", "General Admission", that price, and the capacity or 100. Any other event is returned as it is, and nothing but the tiers changes. |
| Queries.WithLegacyTierIdempotent | actions/queries.ts:64-71 | Backfilling twice is backfilling once. |
| Queries.LegacyZeroCapacityReadAs100 | actions/queries.ts:69 | A legacy capacity of 0 is read as 100. |
| Queries.BackfillLegacyTiers | actions/queries.ts:28-37 | The in-place `forEach` backfills every element of the array and nothing else. |
| Queries.CopyAndBackfill | actions/queries.ts:25-37 | The result is the found events, in the found order, each backfilled. |
| Queries.GetEvents | actions/queries.ts:8-44 | It returns exactly the events of the category, or all events for "All" or no category. Each appears once, backfilled, earliest start first. |
| Queries.GetMyEvents | actions/queries.ts:80-111 | Without a caller the result is []. Otherwise it returns exactly the caller's events, once each, backfilled, newest first. |
| Queries.GetEventById | actions/queries.ts:46-78 | The result is null unless the id is 24 hexadecimal characters naming a stored event, which is then returned backfilled. |
| Queries.CreatedEventFoundById | actions/queries.ts:46-78 | Every event the model creates is found by its id. |
| EventForms.FieldIssues | app/create/page.tsx:25-40 | Each single-field rule fails exactly when its bound is missed. The bounds are title 3, description 10, location 3 and category 2 characters, both dates present, and at most 4 images. |
| EventForms.TierIssues | app/create/page.tsx:32-37 | The tier rules fail exactly for an empty list, an empty name, a negative price or a capacity below 1, naming the offending index. |
| EventForms.ParseCreateForm | app/create/page.tsx:25-40 | The create form submits exactly when no rule fails, and otherwise reports every failing rule. `isPublished` defaults to true. |
| EventForms.ParseEditForm | components/event-edit-form.tsx:24-38 | The edit form submits exactly when no rule fails, and never sends `isPublished`. |
| EventForms.EditFormMatchesCreateForm | components/event-edit-form.tsx:24-38 | Both validators accept the same values and submit the same data, except `isPublished`. |
| EventForms.ValidFormPassesSchema | app/create/page.tsx:73-78 | A valid form, with tier ids set, is accepted by `Event.create`. An update with it keeps the event's published flag. |
| EventForms.CreateFormDefaultsIssues | app/create/page.tsx:52-65 | The initial create form has one tier, "General Admission" at price 0 with capacity 100, and is to be published. It fails only the rules on the fields the organiser must fill in. |
| EventForms.EditFormDefaults | components/event-edit-form.tsx:48-62 | Editing starts from the event's title, description, location, start and end dates, and images. Its tiers are kept, or the default tier is used when it has none. A missing category becomes "Technology". `isPublished` is absent. |
| EventForms.EditFormDefaultsWellFormed | components/event-edit-form.tsx:48-62 | An untouched edit form never fails the date or tier-count rules. The category rule fails only for a stored one-character category. |
| EventForms.FromAiTiers | app/create/page.tsx:103-108 | AI tiers map to the name or "General Admission", the price or 0, and the capacity or 100, with fresh ids, one for one. |
| EventForms.AiTiersNamed | app/create/page.tsx:103-108 | AI tiers always have a name and a non-zero capacity. |
| EventForms.AppendTier | app/create/page.tsx:498 | "Add Ticket Tier" appends an unnamed tier at price 0 with capacity 100 and keeps the others. |
| EventForms.AppendedTierNeedsName | app/create/page.tsx:498 | The form refuses a freshly added tier until it is named. |
| EventForms.RemoveTier | app/create/page.tsx:480-485 | Removal deletes exactly the chosen tier. It is offered only with more than one tier, so at least one tier remains. |
| EventForms.RemoveTierKeepsATier | app/create/page.tsx:480-485 | Removing a tier through the form never triggers the at-least-one-tier rule. |
| EventForms.FirstTooLarge | app/create/page.tsx:133-140 | The reported file is the first one over 2 MB in the chosen order. There is none exactly when every file fits. |
| EventForms.MergeImages | app/create/page.tsx:128-161 | A batch with a file over 2 MB is refused and names that file. Otherwise the result is the current images followed by the new ones, cut to four. |
| EventForms.MergeKeepsCurrentAndCap | components/event-edit-form.tsx:88-120 | Starting from at most four images, an upload keeps every current image in place and never exceeds four. |
| EventForms.RemoveImage | components/event-edit-form.tsx:122-126 | The method copies the list into an array and splices it in place. The result drops exactly the element at the splice position and keeps the rest in order. |
| EventForms.SpliceStart | app/create/page.tsx:163-167 | `splice` counts a negative index from the end and clamps it to the list. |
| Scenarios.ApplyProgress | actions/scan.ts:40-43 | Every request keeps the invariant. No ticket changes holder, event, tier or purchase date. A scanned or cancelled ticket is not changed, and nothing becomes pending. Every new ticket is active, unscanned and under a freshly minted id. |
| Scenarios.SyncUserProgress | actions/user.ts:7-28 | The upsert leaves the tickets as they were and never lowers the id counter. |
| Scenarios.RegisterProgress | actions/tickets.ts:54-64 | Registration changes no existing ticket. The only ticket it can add is active, unscanned and under a fresh id. |
| Scenarios.WebhookProgress | app/api/webhook/stripe/route.ts:39-46 | The webhook changes no existing ticket. The only ticket it can add is active, unscanned and under a fresh id. |
| Scenarios.VerifyPaymentProgress | app/api/verify-payment/route.ts:40-68 | Verify-payment changes only a pending ticket, which it makes active with holder and tier kept. The only ticket it can add is active, unscanned and under a fresh id. |
| Scenarios.CheckInProgress | actions/scan.ts:40-43 | Check-in changes only an unscanned, uncancelled ticket, and keeps its holder and tier. |
| Scenarios.CreateEventProgress | actions/event.ts:44-48 | Creating an event leaves every ticket as it was. |
| Scenarios.UpdateEventProgress | actions/event.ts:101-105 | Updating an event leaves every ticket as it was. |
| Scenarios.DeleteEventProgress | actions/event.ts:139-143 | Deleting an event removes tickets but changes none of those that remain. |
| Scenarios.ProgressTransitive | models/Ticket.ts:20-22 | The ticket-progress relation composes across requests. |
| Scenarios.RunProgress | models/Ticket.ts:15-25 | Any sequence of requests keeps the invariant and makes progress. |
| Scenarios.RunStaysPendingFree | app/api/verify-payment/route.ts:49-54 | From a store without pending tickets, no sequence of requests produces one. Verify-payment's activation branch is then never taken. |
| Scenarios.CheckedInStaysCheckedIn | actions/scan.ts:35-43 | A checked-in ticket stays exactly as it is for as long as it exists, whatever requests follow. |
| Scenarios.VerifyFallbackFulfils | app/api/verify-payment/route.ts:58-68 | For the caller's paid session whose metadata has the five keys and no `ticketId`, verify-payment inserts one active ticket under the next id, carrying the metadata's event, user and tier. |
| Scenarios.WebhookThenVerifyFulfilsTwice | app/api/verify-payment/route.ts:58-68 | If a paid session is handled by the webhook and then by verify-payment, there are two active tickets for the same event, user and tier. |

## Left out

- Clerk's `currentUser()` is an input `Option<ClerkUser>`. Stripe's signature check is a boolean. The retrieved Checkout session and the URL Stripe returns are inputs. The HMAC and the Stripe SDK are not modelled.
- Database connection failures, and exceptions thrown by Stripe calls, are not modelled. The webhook's insert failure is the one exception, an explicit `storeFault` input that gives 500. The read-side `catch` blocks returning `[]` or `null` are not modelled for the same reason.
- Ids are compared as exact strings. MongoDB casts a 24-hex string to an ObjectId whatever the case of its hex digits, so an id spelled with upper-case digits finds the same document there. In the model it is a different key that names nothing. This affects `getEventById`, the event and ticket lookups of `checkInTicket` (where the source would then fail the `eventId.toString()` comparison as a wrong event, and the model reports the event not found), the `ticketId` lookup of verify-payment, and the lookups of `updateEvent` and `deleteEvent`. Minted ids are lower-case.
- Cast errors for ids that are not ObjectIds (`findById` of a malformed id throws) are not modelled. Ids are strings looked up in maps.
- Money is integer cents. `Math.round(tierPrice * 100)` is the `priceCents` input. `isFree` is taken as `priceCents == 0`, so a positive price under half a cent is not distinguished. `parseFloat(tierPrice)` and `amount_total / 100` are kept as their source, because the stored ticket drops `amount` anyway.
- The regex title search of `getEvents` (`query`) is not modelled. `Queries.GetEvents` covers the call without a query.
- `populate` joins, `.lean()` and JSON deep copies are not modelled. Queries return ids or events with their ids. `Scan.AttendeeName` reads the user map directly.
- `revalidatePath`, redirects and all page rendering are not modelled.
- The Gemini call in `generateEventData` is not modelled. Only the mapping of the tiers it returns is.
- `crypto.randomUUID()` and the clock are inputs. `Date.parse` checks on AI dates are not modelled.
- FileReader's asynchronous reading and its read errors are not modelled. An upload is its name, size and resulting data URL.
- zod and Mongoose count string lengths in UTF-16 code units. The model counts characters.
- `createEvent` and `updateEvent` spread arbitrary client keys into the document. The model passes only the form's fields, `EventData`, so a client sending extra keys, such as organiser fields, is not modelled.
- Concurrency between the webhook and verify-payment is modelled only as arbitrary sequential interleavings (`Scenarios.Run`).
- The `Database` stores the three collections as maps in one object. The MongoDB documents' identity and aliasing of loaded documents are not modelled. A loaded document is read, changed as a value, and written back.

## Safeguards the code does not have

A payment flow of this kind would usually have safeguards against double fulfilment:
- pending tickets created at registration;
- deduplication per (event, purchaser, tier);
- an idempotent webhook;
- cleanup of expired checkouts;
- a compensating delete.

None of these exist in the code, and the model follows the code:

- `Webhook.WebhookRedeliveryDuplicates` shows duplicate fulfilment.
- `TicketActions.RegisterTwiceTwoTickets` shows duplicate registration.
- `Scenarios.WebhookThenVerifyFulfilsTwice` shows that both fulfilment paths insert a ticket if both are called with the same session.
- `Scenarios.RunStaysPendingFree` shows the activation path is unreachable from a store without pending tickets.

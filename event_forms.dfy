/**
  * The two event forms, app/create/page.tsx and components/event-edit-form.tsx:
  * their zod validators (the same rules, except that only the create form has
  * `isPublished`, defaulting to true), their initial values, the tiers an AI
  * draft fills in, the tier list's add and remove buttons, and the image list's
  * upload merge and removal.
  *
  * Lengths are counted in characters. Prices are in cents. Fresh tier ids
  * (`crypto.randomUUID()`) and the clock are inputs.
  */
module EventForms {
  import opened Common
  import opened EventModel

  /** The values a form holds; `startDate`/`endDate` are unset until picked, and
      `isPublished` is absent on the edit form. */
  datatype FormValues = FormValues(
    title: string,
    description: string,
    location: string,
    startDate: Option<int>,
    endDate: Option<int>,
    isPublished: Option<bool>,
    tickets: seq<Tier>,
    category: string,
    imageUrls: seq<string>)

  datatype Issue =
    | TitleTooShort
    | DescriptionTooShort
    | LocationTooShort
    | StartDateMissing
    | EndDateMissing
    | NoTiers
    | TierNameEmpty(index: nat)
    | TierPriceNegative(index: nat)
    | TierCapacityTooSmall(index: nat)
    | CategoryTooShort
    | TooManyImages

  const MaxImages := 4
  const MaxImageBytes := 2 * 1024 * 1024
  const DefaultTierName := "General Admission"
  const DefaultCapacity := 100
  const DefaultCategory := "Technology"

  /** The rules on single fields that the values break. */
  function FieldIssues(v: FormValues): (r: set<Issue>)
    ensures TitleTooShort in r <==> |v.title| < 3
    ensures DescriptionTooShort in r <==> |v.description| < 10
    ensures LocationTooShort in r <==> |v.location| < 3
    ensures StartDateMissing in r <==> v.startDate.None?
    ensures EndDateMissing in r <==> v.endDate.None?
    ensures CategoryTooShort in r <==> |v.category| < 2
    ensures TooManyImages in r <==> |v.imageUrls| > MaxImages
    ensures forall x :: x in r ==> !x.NoTiers? && !x.TierNameEmpty? && !x.TierPriceNegative? && !x.TierCapacityTooSmall?
  {
    (if |v.title| < 3 then {TitleTooShort} else {})
    + (if |v.description| < 10 then {DescriptionTooShort} else {})
    + (if |v.location| < 3 then {LocationTooShort} else {})
    + (if v.startDate.None? then {StartDateMissing} else {})
    + (if v.endDate.None? then {EndDateMissing} else {})
    + (if |v.category| < 2 then {CategoryTooShort} else {})
    + (if |v.imageUrls| > MaxImages then {TooManyImages} else {})
  }

  /** The rules on the tier list that the tiers break. */
  function TierIssues(tiers: seq<Tier>): (r: set<Issue>)
    ensures NoTiers in r <==> |tiers| < 1
    ensures forall i: nat :: TierNameEmpty(i) in r <==> i < |tiers| && |tiers[i].name| < 1
    ensures forall i: nat :: TierPriceNegative(i) in r <==> i < |tiers| && tiers[i].price < 0
    ensures forall i: nat :: TierCapacityTooSmall(i) in r <==> i < |tiers| && tiers[i].capacity < 1
    ensures forall x :: x in r ==> x.NoTiers? || x.TierNameEmpty? || x.TierPriceNegative? || x.TierCapacityTooSmall?
  {
    (if |tiers| < 1 then {NoTiers} else {})
    + (set i: nat | i < |tiers| && |tiers[i].name| < 1 :: TierNameEmpty(i))
    + (set i: nat | i < |tiers| && tiers[i].price < 0 :: TierPriceNegative(i))
    + (set i: nat | i < |tiers| && tiers[i].capacity < 1 :: TierCapacityTooSmall(i))
  }

  /** Every rule of `formSchema` that the values break; the form is valid when there is none. */
  function FormIssues(v: FormValues): set<Issue> {
    FieldIssues(v) + TierIssues(v.tickets)
  }

  /** The values the form submits once they pass. */
  function Submitted(v: FormValues, isPublished: Option<bool>): EventData
    requires v.startDate.Some? && v.endDate.Some?
  {
    EventData(v.title, v.description, v.location, v.startDate.value, v.endDate.value,
              v.imageUrls, v.tickets, v.category, isPublished)
  }

  /** The create form's `formSchema.parse`: `isPublished` defaults to true. */
  function ParseCreateForm(v: FormValues): (r: Result<EventData, set<Issue>>)
    ensures r.Ok? <==> FormIssues(v) == {}
    ensures r.Err? ==> r.error == FormIssues(v) && r.error != {}
    ensures r.Ok? ==> r.value.isPublished == Some(v.isPublished != Some(false))
  {
    var issues := FormIssues(v);
    if issues != {} then Err(issues)
    else Ok(Submitted(v, Some(if v.isPublished.Some? then v.isPublished.value else true)))
  }

  /** The edit form's `formSchema.parse`: no `isPublished` key (zod drops keys it does not declare). */
  function ParseEditForm(v: FormValues): (r: Result<EventData, set<Issue>>)
    ensures r.Ok? <==> FormIssues(v) == {}
    ensures r.Ok? ==> r.value.isPublished.None?
  {
    var issues := FormIssues(v);
    if issues != {} then Err(issues)
    else Ok(Submitted(v, None))
  }

  /** The two validators accept the same values and submit the same data, but
      for `isPublished`, which the edit form never sends. */
  lemma EditFormMatchesCreateForm(v: FormValues)
    ensures ParseEditForm(v).Ok? <==> ParseCreateForm(v).Ok?
    ensures ParseEditForm(v).Ok? ==> ParseEditForm(v).value == ParseCreateForm(v).value.(isPublished := None)
  {
  }

  /** A form that validates, with tier ids filled in, passes the Event schema:
      creating it succeeds, as does saving it over an existing event, which then
      keeps its published flag. */
  lemma ValidFormPassesSchema(v: FormValues, ev: Event, organizerId: string, clerkOrganizerId: string, now: int)
    requires FormIssues(v) == {}
    requires forall i :: 0 <= i < |v.tickets| ==> v.tickets[i].id != ""
    requires organizerId != "" && clerkOrganizerId != ""
    ensures NewEvent(ParseCreateForm(v).value, organizerId, clerkOrganizerId, now).Ok?
    ensures UpdatedEvent(ev, ParseEditForm(v).value).Ok?
    ensures UpdatedEvent(ev, ParseEditForm(v).value).value.isPublished == ev.isPublished
  {
    assert |v.title| >= 3 && |v.description| >= 10 && |v.location| >= 3 && |v.category| >= 2;
    forall i | 0 <= i < |v.tickets| ensures v.tickets[i].name != "" {
      assert TierNameEmpty(i) !in FormIssues(v);
    }
  }

  // ---------------------------------------------------------------------------
  // Initial values

  function DefaultTier(id: string): Tier {
    Tier(id, DefaultTierName, 0, DefaultCapacity)
  }

  /** The create form's `defaultValues`. */
  function CreateFormDefaults(tierId: string): FormValues {
    FormValues("", "", "", None, None, Some(true), [DefaultTier(tierId)], DefaultCategory, [])
  }

  /** The initial create form has one free tier of capacity 100, is to be
      published, and is refused only for the fields the organiser must fill in. */
  lemma CreateFormDefaultsIssues(tierId: string)
    ensures var v := CreateFormDefaults(tierId);
      && v.tickets == [Tier(tierId, "General Admission", 0, 100)]
      && v.isPublished == Some(true)
      && FormIssues(v) == {TitleTooShort, DescriptionTooShort, LocationTooShort, StartDateMissing, EndDateMissing}
  {
    var v := CreateFormDefaults(tierId);
    assert TierIssues(v.tickets) == {};
  }

  /** The edit form's `defaultValues` for an event: its fields, its tiers (or the
      default tier when it has none), "Technology" for a missing category; the
      dates are the event's own (an `Event` always has both). */
  function EditFormDefaults(ev: Event, tierId: string): (v: FormValues)
    ensures v.title == ev.title && v.description == ev.description && v.location == ev.location
    ensures |ev.tickets| > 0 ==> v.tickets == ev.tickets
    ensures |ev.tickets| == 0 ==> v.tickets == [Tier(tierId, "General Admission", 0, 100)]
    ensures v.category == if ev.category != "" then ev.category else "Technology"
    ensures v.startDate == Some(ev.startDate) && v.endDate == Some(ev.endDate)
    ensures v.imageUrls == ev.imageUrls && v.isPublished.None?
  {
    FormValues(OrElse(Some(ev.title), ""), OrElse(Some(ev.description), ""), OrElse(Some(ev.location), ""),
               Some(ev.startDate), Some(ev.endDate), None,
               if |ev.tickets| > 0 then ev.tickets else [DefaultTier(tierId)],
               OrElse(Some(ev.category), DefaultCategory), ev.imageUrls)
  }

  /** Editing starts from values with dates and at least one tier, so those rules
      never fail on an untouched edit form; the category rule fails only for a
      stored one-character category (an empty one becomes "Technology"). */
  lemma EditFormDefaultsWellFormed(ev: Event, tierId: string)
    ensures var issues := FormIssues(EditFormDefaults(ev, tierId));
      && StartDateMissing !in issues && EndDateMissing !in issues && NoTiers !in issues
      && (CategoryTooShort in issues <==> |ev.category| == 1)
  {
  }

  // ---------------------------------------------------------------------------
  // The tier list

  /** A tier as an AI draft describes it; any part may be missing. */
  datatype AiTier = AiTier(name: Option<string>, price: Option<int>, capacity: Option<int>)

  /** `data.tickets.map(t => ({id, name: t.name || "General Admission", price: t.price || 0, capacity: t.capacity || 100}))` */
  function FromAiTiers(ts: seq<AiTier>, ids: seq<string>): (r: seq<Tier>)
    requires |ids| == |ts|
    ensures |r| == |ts|
    ensures forall i :: 0 <= i < |r| ==>
              && r[i].id == ids[i]
              && r[i].name == OrElse(ts[i].name, "General Admission")
              && r[i].price == OrNumber(ts[i].price, 0)
              && r[i].capacity == OrNumber(ts[i].capacity, 100)
  {
    seq(|ts|, i requires 0 <= i < |ts| =>
      Tier(ids[i], OrElse(ts[i].name, DefaultTierName), OrNumber(ts[i].price, 0), OrNumber(ts[i].capacity, DefaultCapacity)))
  }

  /** AI tiers always have a name and a non-zero capacity; only a negative price
      or capacity from the draft can still fail the tier rules. */
  lemma AiTiersNamed(ts: seq<AiTier>, ids: seq<string>)
    requires |ids| == |ts|
    ensures forall i :: 0 <= i < |ts| ==> FromAiTiers(ts, ids)[i].name != "" && FromAiTiers(ts, ids)[i].capacity != 0
    ensures (forall i :: 0 <= i < |ts| ==>
               OrNumber(ts[i].price, 0) >= 0 && OrNumber(ts[i].capacity, 100) >= 1) ==>
            forall i :: 0 <= i < |ts| ==> FromAiTiers(ts, ids)[i].price >= 0 && FromAiTiers(ts, ids)[i].capacity >= 1
  {
  }

  /** "Add Ticket Tier": an unnamed free tier of capacity 100. */
  function AppendTier(tiers: seq<Tier>, id: string): (r: seq<Tier>)
    ensures |r| == |tiers| + 1 && r[..|tiers|] == tiers
    ensures r[|tiers|] == Tier(id, "", 0, 100)
  {
    tiers + [Tier(id, "", 0, DefaultCapacity)]
  }

  /** A freshly added tier has no name, so the form is refused until it gets one. */
  lemma AppendedTierNeedsName(v: FormValues, id: string)
    ensures TierNameEmpty(|v.tickets|) in FormIssues(v.(tickets := AppendTier(v.tickets, id)))
  {
  }

  /** The remove button is shown only when there is more than one tier. */
  predicate CanRemoveTier(tiers: seq<Tier>) {
    |tiers| > 1
  }

  /** `remove(index)` on the tier field array. */
  function RemoveTier(tiers: seq<Tier>, index: nat): (r: seq<Tier>)
    requires CanRemoveTier(tiers) && index < |tiers|
    ensures |r| == |tiers| - 1 && |r| >= 1
    ensures r == tiers[..index] + tiers[index + 1..]
  {
    tiers[..index] + tiers[index + 1..]
  }

  /** Removing tiers through the form never brings it to zero tiers. */
  lemma RemoveTierKeepsATier(v: FormValues, index: nat)
    requires CanRemoveTier(v.tickets) && index < |v.tickets|
    ensures NoTiers !in FormIssues(v.(tickets := RemoveTier(v.tickets, index)))
  {
  }

  // ---------------------------------------------------------------------------
  // The image list

  /** A chosen file: its name, its size in bytes and the data URL FileReader would produce. */
  datatype Upload = Upload(name: string, size: int, dataUrl: string)

  datatype ImageError = FileTooLarge(name: string)

  /** The first file over 2 MB, in the order chosen: the rejection `Promise.all` reports. */
  function FirstTooLarge(files: seq<Upload>): (r: Option<nat>)
    ensures r.Some? ==> r.value < |files| && files[r.value].size > MaxImageBytes
                        && forall j :: 0 <= j < r.value ==> files[j].size <= MaxImageBytes
    ensures r.None? ==> forall j :: 0 <= j < |files| ==> files[j].size <= MaxImageBytes
  {
    if |files| == 0 then None
    else if files[0].size > MaxImageBytes then Some(0)
    else
      var rest := FirstTooLarge(files[1..]);
      if rest.Some? then Some(rest.value + 1) else None
  }

  function DataUrls(files: seq<Upload>): (r: seq<string>)
    ensures |r| == |files| && forall i :: 0 <= i < |r| ==> r[i] == files[i].dataUrl
  {
    seq(|files|, i requires 0 <= i < |files| => files[i].dataUrl)
  }

  /** `handleImageUpload`: a batch with any file over 2 MB is refused and the list
      is left alone; otherwise the current images followed by the new ones, cut
      to the first four. */
  function MergeImages(current: seq<string>, files: seq<Upload>): (r: Result<seq<string>, ImageError>)
    ensures r.Err? <==> exists j :: 0 <= j < |files| && files[j].size > MaxImageBytes
    ensures r.Err? ==> r.error == FileTooLarge(files[FirstTooLarge(files).value].name)
    ensures r.Ok? ==> |r.value| == if |current| + |files| < 4 then |current| + |files| else 4
    ensures r.Ok? ==> forall i :: 0 <= i < |r.value| ==>
                        r.value[i] == if i < |current| then current[i] else files[i - |current|].dataUrl
  {
    var first := FirstTooLarge(files);
    if first.Some? then Err(FileTooLarge(files[first.value].name))
    else
      var all := current + DataUrls(files);
      Ok(all[..if |all| < MaxImages then |all| else MaxImages])
  }

  /** Starting from at most four images, an upload keeps every current image in
      place and never leaves more than four. */
  lemma MergeKeepsCurrentAndCap(current: seq<string>, files: seq<Upload>)
    requires |current| <= MaxImages
    requires MergeImages(current, files).Ok?
    ensures var r := MergeImages(current, files).value;
      |r| <= MaxImages && r[..|current|] == current
      && TooManyImages !in FormIssues(FormValues("", "", "", None, None, None, [], "", r))
  {
  }

  /** Where `splice(index, 1)` starts: negative indexes count from the end. */
  function SpliceStart(length: nat, index: int): (k: nat)
    ensures k <= length
  {
    if index < 0 then (if length + index < 0 then 0 else length + index)
    else if index > length then length
    else index
  }

  /** `removeImage`: copy the list, then `splice(index, 1)` the copy in place. */
  method RemoveImage(current: seq<string>, index: int) returns (r: seq<string>)
    ensures var k := SpliceStart(|current|, index);
      if k < |current| then r == current[..k] + current[k + 1..] else r == current
  {
    var a := new string[|current|](i requires 0 <= i < |current| => current[i]);
    var k := SpliceStart(|current|, index);
    if k == |current| {
      return a[..];
    }
    var i := k;
    while i + 1 < a.Length
      invariant k <= i < a.Length
      invariant forall j :: 0 <= j < k ==> a[j] == current[j]
      invariant forall j :: k <= j < i ==> a[j] == current[j + 1]
      invariant forall j :: i < j < a.Length ==> a[j] == current[j]
    {
      a[i] := a[i + 1];
      i := i + 1;
    }
    return a[..a.Length - 1];
  }
}

/**
  * Account handling: the `syncUser` upsert of actions/user.ts, and the
  * find-or-create of the caller's user document that `registerForEvent` and
  * `createEvent` both perform before they write anything else.
  */
module UserActions {
  import opened Common
  import opened ObjectIds
  import opened UserModel
  import opened DataStore

  // ---------------------------------------------------------------------------
  // syncUser

  datatype SyncError = NoEmailAddress | DuplicateIndexKey

  datatype SyncResponse = SignedOut | Synced(user: User) | SyncFailed(error: SyncError)

  /** `${firstName || ''} ${lastName || ''}`.trim() */
  function SyncName(c: ClerkUser): string {
    Trim(OrElse(c.firstName, "") + " " + OrElse(c.lastName, ""))
  }

  /** The fields the upsert writes. `findOneAndUpdate` runs no validators, so an
      empty name is stored as it is; the unique indexes still apply. */
  function SyncFields(u: User, c: ClerkUser): User
    requires |c.emails| > 0
  {
    u.(clerkId := c.id, email := c.emails[0], name := SyncName(c), imageUrl := Some(c.imageUrl))
  }

  /** `User.findOneAndUpdate({clerkId}, fields, {upsert: true, new: true})`.
      Reading `emailAddresses[0].emailAddress` of a user without addresses throws. */
  ghost function SyncUserSpec(s: Store, caller: Option<ClerkUser>, now: int): Step<SyncResponse> {
    if caller.None? then Step(s, SignedOut)
    else
      var c := caller.value;
      if |c.emails| == 0 then Step(s, SyncFailed(NoEmailAddress))
      else
        match FindByClerkId(s.users, c.id)
        case Some(id) =>
          var u := SyncFields(s.users[id], c);
          if Clashes(s.users, id, u) then Step(s, SyncFailed(DuplicateIndexKey))
          else Step(s.(users := s.users[id := u]), Synced(u))
        case None =>
          var u := SyncFields(User(c.id, "", "", None, UserRole, now), c);
          if Clashes(s.users, NextId(s), u) then Step(s, SyncFailed(DuplicateIndexKey))
          else Step(InsertUser(s, u), Synced(u))
  }

  lemma SyncUserKeepsInvariant(s: Store, caller: Option<ClerkUser>, now: int)
    requires Invariant(s)
    ensures Invariant(SyncUserSpec(s, caller, now).store)
  {
    if caller.Some? && |caller.value.emails| > 0 {
      var c := caller.value;
      match FindByClerkId(s.users, c.id)
      case Some(id) =>
        var u := SyncFields(s.users[id], c);
        if !Clashes(s.users, id, u) {
          WriteKeepsIndexesUnique(s.users, id, u);
          RewriteKeepsInvariant(s, s.(users := s.users[id := u]));
        }
      case None =>
        var u := SyncFields(User(c.id, "", "", None, UserRole, now), c);
        if !Clashes(s.users, NextId(s), u) {
          InsertUserKeepsInvariant(s, u);
        }
    }
  }

  /** After a successful sync exactly one user holds the caller's clerk id, with
      the caller's first email address and trimmed name; events and tickets are
      untouched, and a signed-out or failed call changes nothing. */
  lemma SyncUserOutcome(s: Store, caller: Option<ClerkUser>, now: int)
    requires Invariant(s)
    ensures var r := SyncUserSpec(s, caller, now);
      && r.store.events == s.events && r.store.tickets == s.tickets
      && (!r.response.Synced? ==> r.store == s)
      && (caller.None? <==> r.response.SignedOut?)
      && (r.response.Synced? ==>
            var c := caller.value;
            && r.response.user.email == c.emails[0]
            && r.response.user.name == SyncName(c)
            && exists id :: id in r.store.users && r.store.users[id] == r.response.user
                 && OnlyHolder(r.store.users, id, c.id))
  {
    SyncUserKeepsInvariant(s, caller, now);
    if caller.Some? && |caller.value.emails| > 0 {
      var c := caller.value;
      var r := SyncUserSpec(s, caller, now);
      match FindByClerkId(s.users, c.id)
      case Some(id) =>
        if r.response.Synced? {
          assert id in r.store.users && r.store.users[id] == r.response.user;
          UniqueClerkIdsUnique(r.store.users, id, c.id);
        }
      case None =>
        if r.response.Synced? {
          assert NextId(s) in r.store.users && r.store.users[NextId(s)] == r.response.user;
          UniqueClerkIdsUnique(r.store.users, NextId(s), c.id);
        }
    }
  }

  /** Syncing a user whose document already holds the synced fields writes
      them again and changes nothing. */
  lemma ResyncChangesNothing(s: Store, c: ClerkUser, now: int, id: ObjectId)
    requires Invariant(s) && |c.emails| > 0
    requires id in s.users && s.users[id].clerkId == c.id && SyncFields(s.users[id], c) == s.users[id]
    ensures SyncUserSpec(s, Some(c), now) == Step(s, Synced(s.users[id]))
  {
    var u := s.users[id];
    var found := FindByClerkId(s.users, c.id);
    ClerkIdDeterminesUser(s.users, found.value, id, c.id);
    assert !Clashes(s.users, id, u) by {
      forall other | other in s.users && other != id
        ensures s.users[other].clerkId != u.clerkId && s.users[other].email != u.email
      {
      }
    }
    assert s.users[id := u] == s.users;
  }

  /** Calling `syncUser` again with the same Clerk data changes nothing more. */
  lemma SyncUserIdempotent(s: Store, c: ClerkUser, now: int, later: int)
    requires Invariant(s)
    requires SyncUserSpec(s, Some(c), now).response.Synced?
    ensures var s1 := SyncUserSpec(s, Some(c), now).store;
      SyncUserSpec(s1, Some(c), later) == Step(s1, SyncUserSpec(s, Some(c), now).response)
  {
    SyncUserKeepsInvariant(s, Some(c), now);
    var first := SyncUserSpec(s, Some(c), now);
    var s1, u := first.store, first.response.user;
    var id := if FindByClerkId(s.users, c.id).Some? then FindByClerkId(s.users, c.id).value else NextId(s);
    if FindByClerkId(s.users, c.id).None? {
      NextIdIsFresh(s);
    }
    assert id in s1.users && s1.users[id] == u;
    ResyncChangesNothing(s1, c, later, id);
  }

  /** The stored name never starts or ends with whitespace. */
  lemma SyncNameIsTrimmed(c: ClerkUser)
    ensures var n := SyncName(c);
      n != [] ==> !IsJsWhitespace(n[0]) && !IsJsWhitespace(n[|n| - 1])
  {
    TrimIsWhitespaceFreeSlice(OrElse(c.firstName, "") + " " + OrElse(c.lastName, ""));
  }

  method SyncUser(db: Database, caller: Option<ClerkUser>, now: int) returns (response: SyncResponse)
    requires db.Valid()
    modifies db
    ensures db.Valid()
    ensures Step(db.Snapshot(), response) == SyncUserSpec(old(db.Snapshot()), caller, now)
  {
    ghost var s := db.Snapshot();
    SyncUserKeepsInvariant(s, caller, now);
    if caller.None? {
      return SignedOut;
    }
    var c := caller.value;
    if |c.emails| == 0 {
      return SyncFailed(NoEmailAddress);
    }
    var holders := set id | id in db.users && db.users[id].clerkId == c.id;
    assert FindByClerkId(db.users, c.id).Some? ==> FindByClerkId(db.users, c.id).value in holders;
    if holders != {} {
      var id :| id in holders;
      ClerkIdDeterminesUser(db.users, id, FindByClerkId(db.users, c.id).value, c.id);
      var u := SyncFields(db.users[id], c);
      if Clashes(db.users, id, u) {
        return SyncFailed(DuplicateIndexKey);
      }
      db.users := db.users[id := u];
      return Synced(u);
    }
    var u := SyncFields(User(c.id, "", "", None, UserRole, now), c);
    if Clashes(db.users, MintId(db.minted), u) {
      return SyncFailed(DuplicateIndexKey);
    }
    db.users := db.users[MintId(db.minted) := u];
    db.minted := db.minted + 1;
    return Synced(u);
  }

  // ---------------------------------------------------------------------------
  // Find-or-create of the caller's user document

  /** `clerkUser.emailAddresses[0]?.emailAddress || ""` */
  function PrimaryEmail(c: ClerkUser): string {
    if |c.emails| > 0 then c.emails[0] else ""
  }

  /** `firstName ? `${firstName} ${lastName || ""}`.trim() : username || "Unknown"` */
  function DisplayName(c: ClerkUser): string {
    if Truthy(c.firstName) then Trim(c.firstName.value + " " + OrElse(c.lastName, ""))
    else OrElse(c.username, "Unknown")
  }

  /** Look the caller up by clerk id; failing that, take over the user with the
      caller's email by rebinding its clerk id (`save` validates the whole
      document again); failing that, create a user (which the schema rejects
      when the email or the name is empty). */
  ghost function ResolveUserSpec(s: Store, c: ClerkUser, now: int): Step<Result<ObjectId, UserError>> {
    match FindByClerkId(s.users, c.id)
    case Some(id) => Step(s, Ok(id))
    case None =>
      match FindByEmail(s.users, PrimaryEmail(c))
      case Some(id) =>
        var u := s.users[id].(clerkId := c.id);
        if UserComplete(u) then Step(s.(users := s.users[id := u]), Ok(id))
        else Step(s, Err(UserFieldMissing))
      case None =>
        match NewUser(c.id, PrimaryEmail(c), DisplayName(c), Some(c.imageUrl), now)
        case Err(e) => Step(s, Err(e))
        case Ok(u) => Step(InsertUser(s, u), Ok(NextId(s)))
  }

  lemma ResolveUserKeepsInvariant(s: Store, c: ClerkUser, now: int)
    requires Invariant(s)
    ensures Invariant(ResolveUserSpec(s, c, now).store)
  {
    match FindByClerkId(s.users, c.id)
    case Some(id) =>
    case None =>
      match FindByEmail(s.users, PrimaryEmail(c))
      case Some(id) =>
        var u := s.users[id].(clerkId := c.id);
        if UserComplete(u) {
          RebindKeepsIndexesUnique(s.users, id, c.id);
          RewriteKeepsInvariant(s, s.(users := s.users[id := u]));
        }
      case None =>
        match NewUser(c.id, PrimaryEmail(c), DisplayName(c), Some(c.imageUrl), now)
        case Err(e) =>
        case Ok(u) =>
          InsertUserKeepsInvariant(s, u);
  }

  /** Giving a user a clerk id nobody holds keeps both indexes unique. */
  lemma RebindKeepsIndexesUnique(users: map<ObjectId, User>, id: ObjectId, clerkId: string)
    requires UniqueIndexes(users) && id in users
    requires forall other :: other in users ==> users[other].clerkId != clerkId
    ensures UniqueIndexes(users[id := users[id].(clerkId := clerkId)])
  {
    var u := users[id].(clerkId := clerkId);
    assert !Clashes(users, id, u) by {
      forall other | other in users && other != id
        ensures users[other].clerkId != u.clerkId && users[other].email != u.email
      {
        if users[other].email == u.email {
          EmailDeterminesUser(users, other, id, u.email);
        }
      }
    }
    WriteKeepsIndexesUnique(users, id, u);
  }

  /** Resolution touches only the users collection. When it succeeds, exactly one
      user holds the caller's clerk id and it is the returned one. It fails only
      when nobody holds the clerk id and the document it would save (the rebound
      one, or a new one) misses a required field; a failure changes nothing. */
  lemma ResolveUserBindsCaller(s: Store, c: ClerkUser, now: int)
    requires Invariant(s)
    ensures var r := ResolveUserSpec(s, c, now);
      && r.store.events == s.events && r.store.tickets == s.tickets
      && (r.response.Err? ==> r.store == s && FindByClerkId(s.users, c.id).None?)
      && (FindByClerkId(s.users, c.id).None? && FindByEmail(s.users, PrimaryEmail(c)).None? ==>
            (r.response.Err? <==> c.id == "" || PrimaryEmail(c) == "" || DisplayName(c) == ""))
      && (r.response.Ok? ==>
            && r.response.value in r.store.users
            && r.store.users[r.response.value].clerkId == c.id
            && OnlyHolder(r.store.users, r.response.value, c.id))
  {
    ResolveUserKeepsInvariant(s, c, now);
    var r := ResolveUserSpec(s, c, now);
    if r.response.Ok? {
      UniqueClerkIdsUnique(r.store.users, r.response.value, c.id);
    }
  }

  /** Once a user holds the caller's clerk id, resolution returns it and changes
      nothing: a second registration reuses the user of the first. */
  lemma ResolveUserStable(s: Store, c: ClerkUser, now: int, id: ObjectId)
    requires Invariant(s) && id in s.users && s.users[id].clerkId == c.id
    ensures ResolveUserSpec(s, c, now) == Step(s, Ok(id))
  {
    ClerkIdDeterminesUser(s.users, id, FindByClerkId(s.users, c.id).value, c.id);
  }

  method ResolveUser(db: Database, c: ClerkUser, now: int) returns (r: Result<ObjectId, UserError>)
    requires db.Valid()
    modifies db
    ensures db.Valid()
    ensures Step(db.Snapshot(), r) == ResolveUserSpec(old(db.Snapshot()), c, now)
  {
    ResolveUserKeepsInvariant(db.Snapshot(), c, now);
    var byClerk := set id | id in db.users && db.users[id].clerkId == c.id;
    assert FindByClerkId(db.users, c.id).Some? ==> FindByClerkId(db.users, c.id).value in byClerk;
    if byClerk != {} {
      var id :| id in byClerk;
      ClerkIdDeterminesUser(db.users, id, FindByClerkId(db.users, c.id).value, c.id);
      return Ok(id);
    }
    var email := PrimaryEmail(c);
    var byEmail := set id | id in db.users && db.users[id].email == email;
    assert FindByEmail(db.users, email).Some? ==> FindByEmail(db.users, email).value in byEmail;
    if byEmail != {} {
      var id :| id in byEmail;
      EmailDeterminesUser(db.users, id, FindByEmail(db.users, email).value, email);
      var u := db.users[id].(clerkId := c.id);
      if !UserComplete(u) {
        return Err(UserFieldMissing);
      }
      db.users := db.users[id := u];
      return Ok(id);
    }
    var created := NewUser(c.id, email, DisplayName(c), Some(c.imageUrl), now);
    if created.Err? {
      return Err(created.error);
    }
    var id := MintId(db.minted);
    db.users := db.users[id := created.value];
    db.minted := db.minted + 1;
    return Ok(id);
  }
}

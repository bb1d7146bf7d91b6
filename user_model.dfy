/**
  * The `User` collection: one document per account, with unique indexes on
  * `clerkId` and `email`, a required `name`, and a role that defaults to "user".
  */
module UserModel {
  import opened Common
  import opened ObjectIds

  datatype Role = AdminRole | UserRole

  datatype User = User(
    clerkId: string,
    email: string,
    name: string,
    imageUrl: Option<string>,
    role: Role,
    createdAt: int)

  datatype UserError = UserFieldMissing

  /** The schema's `required` checks: Mongoose's `required` rejects "". */
  predicate UserComplete(u: User) {
    u.clerkId != "" && u.email != "" && u.name != ""
  }

  /** `User.create`: the required strings must be non-empty (Mongoose's `required`
      rejects ""), the role takes its default "user", `createdAt` the clock. */
  function NewUser(clerkId: string, email: string, name: string, imageUrl: Option<string>, now: int)
    : (r: Result<User, UserError>)
    ensures r.Ok? <==> clerkId != "" && email != "" && name != ""
    ensures r.Ok? ==> r.value.role == UserRole && r.value.createdAt == now
    ensures r.Ok? ==> r.value.clerkId == clerkId && r.value.email == email && r.value.name == name
    ensures r.Err? ==> r.error == UserFieldMissing
  {
    if clerkId == "" || email == "" || name == "" then Err(UserFieldMissing)
    else Ok(User(clerkId, email, name, imageUrl, UserRole, now))
  }

  /** The unique index on `clerkId`. */
  ghost predicate UniqueClerkIds(users: map<ObjectId, User>) {
    forall a, b :: a in users && b in users && users[a].clerkId == users[b].clerkId ==> a == b
  }

  /** The unique index on `email`. */
  ghost predicate UniqueEmails(users: map<ObjectId, User>) {
    forall a, b :: a in users && b in users && users[a].email == users[b].email ==> a == b
  }

  ghost predicate UniqueIndexes(users: map<ObjectId, User>) {
    UniqueClerkIds(users) && UniqueEmails(users)
  }

  /** Writing `u` under `id` would duplicate a key held by another document. */
  predicate Clashes(users: map<ObjectId, User>, id: ObjectId, u: User) {
    exists other :: other in users && other != id && (users[other].clerkId == u.clerkId || users[other].email == u.email)
  }

  /** A write the unique indexes accept keeps them unique. */
  lemma WriteKeepsIndexesUnique(users: map<ObjectId, User>, id: ObjectId, u: User)
    requires UniqueIndexes(users) && !Clashes(users, id, u)
    ensures UniqueIndexes(users[id := u])
  {
    var m := users[id := u];
    forall a, b | a in m && b in m && m[a].clerkId == m[b].clerkId ensures a == b {
      if a != id && b != id {
        assert users[a].clerkId == users[b].clerkId;
      }
    }
    forall a, b | a in m && b in m && m[a].email == m[b].email ensures a == b {
      if a != id && b != id {
        assert users[a].email == users[b].email;
      }
    }
  }

  /** Under the unique index, two documents found by the same clerk id are the same. */
  lemma ClerkIdDeterminesUser(users: map<ObjectId, User>, a: ObjectId, b: ObjectId, clerkId: string)
    requires UniqueClerkIds(users)
    requires a in users && users[a].clerkId == clerkId
    requires b in users && users[b].clerkId == clerkId
    ensures a == b
  {
  }

  /** Under the unique index, two documents found by the same email are the same. */
  lemma EmailDeterminesUser(users: map<ObjectId, User>, a: ObjectId, b: ObjectId, email: string)
    requires UniqueEmails(users)
    requires a in users && users[a].email == email
    requires b in users && users[b].email == email
    ensures a == b
  {
  }

  /** `id` is the only user holding `clerkId`. */
  ghost predicate OnlyHolder(users: map<ObjectId, User>, id: ObjectId, clerkId: string) {
    forall other :: other in users && users[other].clerkId == clerkId ==> other == id
  }

  /** Under the unique index, a user holding a clerk id is its only holder. */
  lemma UniqueClerkIdsUnique(users: map<ObjectId, User>, id: ObjectId, clerkId: string)
    requires UniqueClerkIds(users) && id in users && users[id].clerkId == clerkId
    ensures OnlyHolder(users, id, clerkId)
  {
  }

  /** `User.findOne({clerkId})`: some user holding the clerk id, if any. */
  ghost function FindByClerkId(users: map<ObjectId, User>, clerkId: string): (r: Option<ObjectId>)
    ensures r.Some? ==> r.value in users && users[r.value].clerkId == clerkId
    ensures r.None? ==> forall id :: id in users ==> users[id].clerkId != clerkId
  {
    if exists id :: id in users && users[id].clerkId == clerkId then
      var id :| id in users && users[id].clerkId == clerkId; Some(id)
    else None
  }

  /** `User.findOne({email})`: some user holding the email, if any. */
  ghost function FindByEmail(users: map<ObjectId, User>, email: string): (r: Option<ObjectId>)
    ensures r.Some? ==> r.value in users && users[r.value].email == email
    ensures r.None? ==> forall id :: id in users ==> users[id].email != email
  {
    if exists id :: id in users && users[id].email == email then
      var id :| id in users && users[id].email == email; Some(id)
    else None
  }
}

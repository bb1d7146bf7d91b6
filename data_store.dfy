/**
  * The database the server actions share: the `users`, `events` and `tickets`
  * collections as maps from ObjectId to document, and the count of ids minted
  * so far. `Store` is its value; `Database` is the mutable object the actions
  * update. `Invariant` is what every action preserves: fresh ids are really
  * fresh and non-empty, the user indexes are unique, and every stored ticket is complete with agreeing scan fields.
  */
module DataStore {
  import opened Common
  import opened ObjectIds
  import opened UserModel
  import opened EventModel
  import opened TicketModel

  datatype Store = Store(
    users: map<ObjectId, User>,
    events: map<ObjectId, Event>,
    tickets: map<ObjectId, Ticket>,
    minted: nat)

  /** One request: the store it leaves behind and the response it returns. */
  datatype Step<+R> = Step(store: Store, response: R)

  const Empty := Store(map[], map[], map[], 0)

  /** No id minted from counter `k` onwards is used in `m`. */
  ghost predicate FreshFrom<V>(m: map<ObjectId, V>, k: nat) {
    forall n: nat {:trigger MintId(n)} :: k <= n ==> MintId(n) !in m
  }

  /** Every document's id is a real ObjectId, never the empty string. */
  ghost predicate KeysNonEmpty<V>(m: map<ObjectId, V>) {
    forall id :: id in m ==> id != ""
  }

  ghost predicate Invariant(s: Store) {
    && KeysNonEmpty(s.users) && KeysNonEmpty(s.events) && KeysNonEmpty(s.tickets)
    && FreshFrom(s.users, s.minted)
    && FreshFrom(s.events, s.minted)
    && FreshFrom(s.tickets, s.minted)
    && UniqueIndexes(s.users)
    && (forall id :: id in s.tickets ==> StoredTicket(s.tickets[id]))
  }

  /** The id the database gives the next inserted document. */
  function NextId(s: Store): ObjectId {
    MintId(s.minted)
  }

  function InsertUser(s: Store, u: User): Store {
    s.(users := s.users[NextId(s) := u], minted := s.minted + 1)
  }

  function InsertEvent(s: Store, e: Event): Store {
    s.(events := s.events[NextId(s) := e], minted := s.minted + 1)
  }

  function InsertTicket(s: Store, t: Ticket): (r: Store)
    ensures r.tickets.Keys == s.tickets.Keys + {NextId(s)}
  {
    s.(tickets := s.tickets[NextId(s) := t], minted := s.minted + 1)
  }

  lemma EmptyInvariant()
    ensures Invariant(Empty)
  {
  }

  lemma {:induction false} FreshFromInsert<V>(m: map<ObjectId, V>, k: nat, v: V)
    requires FreshFrom(m, k)
    ensures FreshFrom(m[MintId(k) := v], k + 1)
  {
    forall n: nat | k + 1 <= n ensures MintId(n) !in m[MintId(k) := v] {
      MintIdInjective(n, k);
    }
  }

  lemma FreshFromShrink<V>(m: map<ObjectId, V>, m': map<ObjectId, V>, k: nat, k': nat)
    requires FreshFrom(m, k) && m'.Keys <= m.Keys && k <= k'
    ensures FreshFrom(m', k')
  {
  }

  /** The next id is unused in every collection. */
  lemma NextIdIsFresh(s: Store)
    requires Invariant(s)
    ensures NextId(s) !in s.users && NextId(s) !in s.events && NextId(s) !in s.tickets
    ensures NextId(s) != ""
  {
    assert MintId(s.minted) !in s.users;
  }

  lemma InsertTicketKeepsInvariant(s: Store, t: Ticket)
    requires Invariant(s) && StoredTicket(t)
    ensures Invariant(InsertTicket(s, t))
    ensures NextId(s) !in s.tickets
  {
    NextIdIsFresh(s);
    FreshFromInsert(s.tickets, s.minted, t);
  }

  /** An insert adds exactly one ticket: the new id was unused. */
  lemma InsertTicketCount(s: Store, t: Ticket)
    requires Invariant(s)
    ensures |InsertTicket(s, t).tickets| == |s.tickets| + 1
  {
    NextIdIsFresh(s);
    assert InsertTicket(s, t).tickets.Keys == s.tickets.Keys + {NextId(s)};
  }

  lemma InsertEventKeepsInvariant(s: Store, e: Event)
    requires Invariant(s)
    ensures Invariant(InsertEvent(s, e))
    ensures NextId(s) !in s.events
  {
    NextIdIsFresh(s);
    FreshFromInsert(s.events, s.minted, e);
  }

  lemma InsertUserKeepsInvariant(s: Store, u: User)
    requires Invariant(s) && !Clashes(s.users, NextId(s), u)
    ensures Invariant(InsertUser(s, u))
    ensures NextId(s) !in s.users
  {
    NextIdIsFresh(s);
    FreshFromInsert(s.users, s.minted, u);
    WriteKeepsIndexesUnique(s.users, NextId(s), u);
  }

  /** Replacing or removing documents under existing ids keeps the invariant as
      long as the user indexes stay unique and every ticket stays storable. */
  lemma RewriteKeepsInvariant(s: Store, s': Store)
    requires Invariant(s) && s'.minted == s.minted
    requires s'.users.Keys <= s.users.Keys && s'.events.Keys <= s.events.Keys && s'.tickets.Keys <= s.tickets.Keys
    requires UniqueIndexes(s'.users)
    requires forall id :: id in s'.tickets ==> StoredTicket(s'.tickets[id])
    ensures Invariant(s')
  {
    FreshFromShrink(s.users, s'.users, s.minted, s.minted);
    FreshFromShrink(s.events, s'.events, s.minted, s.minted);
    FreshFromShrink(s.tickets, s'.tickets, s.minted, s.minted);
  }

  class Database {
    var users: map<ObjectId, User>
    var events: map<ObjectId, Event>
    var tickets: map<ObjectId, Ticket>
    var minted: nat

    function Snapshot(): Store
      reads this
    {
      Store(users, events, tickets, minted)
    }

    ghost predicate Valid()
      reads this
    {
      Invariant(Snapshot())
    }

    /** An empty database. */
    constructor ()
      ensures Snapshot() == Empty && Valid()
    {
      users, events, tickets, minted := map[], map[], map[], 0;
    }

    /** Inserts a ticket under a freshly minted id. */
    method AddTicket(t: Ticket) returns (id: ObjectId)
      requires Valid() && StoredTicket(t)
      modifies this
      ensures Valid()
      ensures id == NextId(old(Snapshot())) && id !in old(tickets)
      ensures Snapshot() == InsertTicket(old(Snapshot()), t)
    {
      InsertTicketKeepsInvariant(Snapshot(), t);
      id := MintId(minted);
      tickets := tickets[id := t];
      minted := minted + 1;
    }
  }

  // ---------------------------------------------------------------------------
  // Queries: `Model.find(filter).sort(...)`

  /** Some document of a non-empty set of ids has the largest key. */
  lemma {:induction false} MaxKeyExists<V>(ids: set<ObjectId>, m: map<ObjectId, V>, key: V -> int)
    requires ids != {} && ids <= m.Keys
    ensures exists top :: top in ids && forall id :: id in ids ==> key(m[id]) <= key(m[top])
    decreases |ids|
  {
    var x :| x in ids;
    if ids != {x} {
      var rest := ids - {x};
      MaxKeyExists(rest, m, key);
      var y :| y in rest && forall id :: id in rest ==> key(m[id]) <= key(m[y]);
      if key(m[x]) > key(m[y]) {
        assert forall id :: id in ids ==> key(m[id]) <= key(m[x]);
      } else {
        assert forall id :: id in ids ==> key(m[id]) <= key(m[y]);
      }
    } else {
      assert forall id :: id in ids ==> key(m[id]) <= key(m[x]);
    }
  }

  /** The ids of the documents matching `matches`, each exactly once, ordered by
      `key` from largest to smallest (documents with equal keys in any order). */
  method FindSorted<V>(m: map<ObjectId, V>, matches: V -> bool, key: V -> int) returns (ids: seq<ObjectId>)
    ensures forall i :: 0 <= i < |ids| ==> ids[i] in m && matches(m[ids[i]])
    ensures forall id :: id in m && matches(m[id]) ==> id in ids
    ensures forall i, j :: 0 <= i < j < |ids| ==> ids[i] != ids[j]
    ensures forall i, j :: 0 <= i < j < |ids| ==> key(m[ids[i]]) >= key(m[ids[j]])
  {
    var rest := set id | id in m && matches(m[id]);
    ids := [];
    while rest != {}
      invariant forall id :: id in rest ==> id in m && matches(m[id])
      invariant forall i :: 0 <= i < |ids| ==> ids[i] in m && matches(m[ids[i]]) && ids[i] !in rest
      invariant forall id :: id in m && matches(m[id]) ==> id in rest || id in ids
      invariant forall i, j :: 0 <= i < j < |ids| ==> ids[i] != ids[j]
      invariant forall i, j :: 0 <= i < j < |ids| ==> key(m[ids[i]]) >= key(m[ids[j]])
      invariant forall i, id :: 0 <= i < |ids| && id in rest ==> key(m[ids[i]]) >= key(m[id])
      decreases |rest|
    {
      MaxKeyExists(rest, m, key);
      var top :| top in rest && forall id :: id in rest ==> key(m[id]) <= key(m[top]);
      ids := ids + [top];
      rest := rest - {top};
    }
  }
}

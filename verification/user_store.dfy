/** The in-memory user store: a map from user id to user record, and the id
    generator that numbers new users. */
module UserStore {
  import opened Outcomes

  /** A bank user (entity `User`) with the set of IBANs of its accounts. */
  datatype User = User(
    id: int,
    firstName: string,
    lastName: string,
    address: string,
    accounts: set<string>)

  /** `idGenerator` is the last id handed out (0 before the first user). */
  datatype Store = Store(idGenerator: int, users: map<int, User>)

  const Empty: Store := Store(0, map[])

  /** The store after an insertion, and the id the insertion assigned. */
  datatype Added = Added(store: Store, id: int)

  /** Ids are 1..idGenerator, and each user is stored under its own id. */
  ghost predicate Valid(s: Store) {
    && s.idGenerator >= 0
    && forall id :: id in s.users ==> 1 <= id <= s.idGenerator && s.users[id].id == id
  }

  /** `addUser`: draws the next id and stores the user under it, carrying it. */
  function AddUser(s: Store, u: User): (r: Added)
    ensures r.id > s.idGenerator
    ensures r.store.idGenerator == r.id
    ensures GetUser(r.store, r.id) == Some(u.(id := r.id))
    ensures forall id :: id != r.id ==> GetUser(r.store, id) == GetUser(s, id)
    ensures Valid(s) ==> Valid(r.store) && r.id !in s.users
  {
    var id := s.idGenerator + 1;
    Added(Store(id, s.users[id := u.(id := id)]), id)
  }

  /** `getUser`: the user stored under `id`, if any. */
  function GetUser(s: Store, id: int): (r: Option<User>)
    ensures r.Some? <==> id in s.users
    ensures r.Some? ==> r.value == s.users[id]
  {
    if id in s.users then Some(s.users[id]) else None
  }

  /** An id the generator has not handed out finds no user. */
  lemma UnissuedIdIsAbsent(s: Store, id: int)
    requires Valid(s)
    requires id < 1 || id > s.idGenerator
    ensures GetUser(s, id) == None
  {
  }

  /** The store after adding `us` one after the other, and the ids assigned. */
  function AddAll(s: Store, us: seq<User>): (r: (Store, seq<int>))
    ensures |r.1| == |us|
    decreases |us|
  {
    if us == [] then (s, [])
    else
      var a := AddUser(s, us[0]);
      var rest := AddAll(a.store, us[1..]);
      (rest.0, [a.id] + rest.1)
  }

  /** Starting from any store, the k-th added user gets id idGenerator + k + 1:
      ids are consecutive, strictly increasing, and never reused. */
  lemma {:induction false} AddAllIds(s: Store, us: seq<User>)
    ensures forall k :: 0 <= k < |us| ==> AddAll(s, us).1[k] == s.idGenerator + k + 1
    ensures AddAll(s, us).0.idGenerator == s.idGenerator + |us|
    decreases |us|
  {
    if us != [] {
      var a := AddUser(s, us[0]);
      AddAllIds(a.store, us[1..]);
    }
  }

  /** From the empty store the ids issued are exactly 1, 2, ..., n. */
  lemma FirstIdsFromEmpty(us: seq<User>)
    ensures forall k :: 0 <= k < |us| ==> AddAll(Empty, us).1[k] == k + 1
  {
    AddAllIds(Empty, us);
  }

  /** Every user of a batch is found afterwards under its assigned id, and
      users stored before the batch are untouched. */
  lemma {:induction false} AddAllStoresEach(s: Store, us: seq<User>)
    requires Valid(s)
    ensures Valid(AddAll(s, us).0)
    ensures forall k :: 0 <= k < |us| ==>
              GetUser(AddAll(s, us).0, AddAll(s, us).1[k]) == Some(us[k].(id := AddAll(s, us).1[k]))
    ensures forall id :: id in s.users ==> GetUser(AddAll(s, us).0, id) == GetUser(s, id)
    decreases |us|
  {
    if us != [] {
      var a := AddUser(s, us[0]);
      AddAllStoresEach(a.store, us[1..]);
      AddAllIds(a.store, us[1..]);
      var r := AddAll(s, us);
      forall k | 0 <= k < |us|
        ensures GetUser(r.0, r.1[k]) == Some(us[k].(id := r.1[k]))
      {
        if k == 0 {
          assert r.1[0] == a.id && a.id in a.store.users;
        } else {
          assert r.1[k] == AddAll(a.store, us[1..]).1[k - 1];
          assert us[k] == us[1..][k - 1];
        }
      }
    }
  }
}

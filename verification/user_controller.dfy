/**
 * The user directory: the `User` collection and the module-level array
 * `userCache` that both lookups search first and append to.
 */
module UserController {
  import opened Wrappers
  import opened UserModel

  /** The two fields the lookups search on. */
  datatype Field = CertField | IdField

  function KeyOf(u: User, f: Field): string
  {
    match f
    case CertField => u.cert
    case IdField => u.userid
  }

  /** A search: `field == value`, and `deleted == false` too when `liveOnly`. */
  datatype Filter = Filter(field: Field, value: string, liveOnly: bool)

  predicate Selects(f: Filter, u: User)
  {
    KeyOf(u, f.field) == f.value && (f.liveOnly ==> !u.deleted)
  }

  /** The first user in `users` that the filter selects. */
  function First(users: seq<User>, f: Filter): (r: Option<User>)
    ensures r.Some? ==> Selects(f, r.value)
    ensures r.Some? ==> exists i :: 0 <= i < |users| && users[i] == r.value &&
                                    forall j :: 0 <= j < i ==> !Selects(f, users[j])
    ensures r.None? <==> forall i :: 0 <= i < |users| ==> !Selects(f, users[i])
    decreases |users|
  {
    if users == [] then None
    else if Selects(f, users[0]) then Some(users[0])
    else
      var r := First(users[1..], f);
      assert r.Some? ==> exists i :: 0 <= i < |users| - 1 && users[1..][i] == r.value &&
                                     forall j :: 0 <= j < i ==> !Selects(f, users[1..][j]);
      if r.Some? then
        var i :| 0 <= i < |users| - 1 && users[1..][i] == r.value && forall j :: 0 <= j < i ==> !Selects(f, users[1..][j]);
        assert users[i + 1] == r.value && forall j :: 0 <= j < i + 1 ==> !Selects(f, users[j]);
        r
      else
        assert forall i :: 1 <= i < |users| ==> users[i] == users[1..][i - 1];
        r
  }

  /** `Array.prototype.find` over `users` with the filter as predicate. */
  method Find(users: seq<User>, f: Filter) returns (r: Option<User>)
    ensures r == First(users, f)
  {
    var i := 0;
    while i < |users|
      invariant 0 <= i <= |users|
      invariant First(users, f) == First(users[i..], f)
    {
      if Selects(f, users[i]) {
        return Some(users[i]);
      }
      assert users[i..][1..] == users[i + 1..];
      i := i + 1;
    }
    r := None;
  }

  /**
   * The user a lookup yields: the first cached user whose field matches,
   * else the first non-deleted stored one.
   */
  function LookupResult(cache: seq<User>, store: seq<User>, field: Field, key: string): (r: Option<User>)
    ensures r.Some? ==> KeyOf(r.value, field) == key
    ensures r.None? <==> First(cache, Filter(field, key, false)).None? && First(store, Filter(field, key, true)).None?
  {
    var hit := First(cache, Filter(field, key, false));
    if hit.Some? then hit else First(store, Filter(field, key, true))
  }

  /** The cache after a lookup: a miss that storage answers appends the user found. */
  function CacheAfterLookup(cache: seq<User>, store: seq<User>, field: Field, key: string): (c: seq<User>)
    ensures cache <= c
  {
    if First(cache, Filter(field, key, false)).Some? then cache
    else var found := First(store, Filter(field, key, true)); cache + (if found.Some? then [found.value] else [])
  }

  /** No two stored users share a `userid` (the schema's unique index). */
  ghost predicate UniqueIds(store: seq<User>)
  {
    forall i, j :: 0 <= i < |store| && 0 <= j < |store| && store[i].userid == store[j].userid ==> i == j
  }

  /**
   * The cache is shared between the two lookups: once a user is cached by
   * either, an id lookup finds that same user in the cache.
   */
  lemma SharedCacheHit(cache: seq<User>, store: seq<User>, u: User)
    requires u in cache
    requires forall c :: c in cache ==> c in store
    requires UniqueIds(store)
    ensures First(cache, Filter(IdField, u.userid, false)) == Some(u)
  {
    var r := First(cache, Filter(IdField, u.userid, false));
    assert Selects(Filter(IdField, u.userid, false), u);
    assert r.Some?;
    var v := r.value;
    assert v in cache;
    var i :| 0 <= i < |store| && store[i] == v;
    var j :| 0 <= j < |store| && store[j] == u;
    assert store[i].userid == store[j].userid;
  }

  class UserDirectory {
    /** The `User` collection, in its natural order. */
    var store: seq<User>
    /** `userCache`: users found through the lookups, in the order they were found. */
    var cache: seq<User>

    /**
     * Stored users pass the schema's validators and have distinct ids; every
     * cached user is a stored, non-deleted one.
     */
    ghost predicate Valid()
      reads this
    {
      && (forall u :: u in store ==> UserModel.Valid(u))
      && UniqueIds(store)
      && (forall u :: u in cache ==> u in store && !u.deleted)
    }

    constructor (store: seq<User>)
      requires forall u :: u in store ==> UserModel.Valid(u)
      requires UniqueIds(store)
      ensures Valid() && this.store == store && cache == []
    {
      this.store := store;
      cache := [];
    }

    /**
     * The lookup both `findUserByCert` and `findUserById` perform: the first
     * cached user whose field matches, else the first non-deleted stored one,
     * which is then appended to the cache.
     */
    method Lookup(field: Field, key: string) returns (user: Option<User>)
      requires Valid()
      modifies this`cache
      ensures Valid()
      ensures old(cache) <= cache
      ensures user.Some? ==> user.value in cache && KeyOf(user.value, field) == key && !user.value.deleted
      ensures First(old(cache), Filter(field, key, false)).Some? ==>
        user == First(old(cache), Filter(field, key, false)) && cache == old(cache)
      ensures First(old(cache), Filter(field, key, false)).None? ==>
        && user == First(store, Filter(field, key, true))
        && cache == old(cache) + (if user.Some? then [user.value] else [])
    {
      user := None;
      if |cache| > 0 {
        user := Find(cache, Filter(field, key, false));
      }
      if user.None? {
        user := Find(store, Filter(field, key, true));
        if user.Some? {
          cache := cache + [user.value];
        }
      }
    }

    /** `findUserByCert(userCn)`: `Lookup` on `cert`. */
    method FindUserByCert(userCn: string) returns (user: Option<User>)
      requires Valid()
      modifies this`cache
      ensures Valid()
      ensures old(cache) <= cache
      ensures user.Some? ==> user.value in cache && user.value.cert == userCn && !user.value.deleted
      ensures First(old(cache), Filter(CertField, userCn, false)).Some? ==>
        user == First(old(cache), Filter(CertField, userCn, false)) && cache == old(cache)
      ensures First(old(cache), Filter(CertField, userCn, false)).None? ==>
        && user == First(store, Filter(CertField, userCn, true))
        && cache == old(cache) + (if user.Some? then [user.value] else [])
    {
      user := Lookup(CertField, userCn);
    }

    /** `findUserById(userid)`: `Lookup` on `userid`. */
    method FindUserById(userid: string) returns (user: Option<User>)
      requires Valid()
      modifies this`cache
      ensures Valid()
      ensures old(cache) <= cache
      ensures user.Some? ==> user.value in cache && user.value.userid == userid && !user.value.deleted
      ensures First(old(cache), Filter(IdField, userid, false)).Some? ==>
        user == First(old(cache), Filter(IdField, userid, false)) && cache == old(cache)
      ensures First(old(cache), Filter(IdField, userid, false)).None? ==>
        && user == First(store, Filter(IdField, userid, true))
        && cache == old(cache) + (if user.Some? then [user.value] else [])
    {
      user := Lookup(IdField, userid);
    }
  }

  /**
   * A user found by certificate is found again by id without a storage
   * query: the id lookup answers from the cache as the certificate lookup
   * left it, and leaves that cache as it was.
   */
  method CertThenId(dir: UserDirectory, userCn: string) returns (byCert: Option<User>, byId: Option<User>, ghost cacheAfterCert: seq<User>)
    requires dir.Valid()
    modifies dir`cache
    ensures dir.Valid()
    ensures byCert == LookupResult(old(dir.cache), dir.store, CertField, userCn)
    ensures cacheAfterCert == CacheAfterLookup(old(dir.cache), dir.store, CertField, userCn)
    ensures dir.cache == cacheAfterCert
    ensures byCert.None? ==> byId.None?
    ensures byCert.Some? ==>
      && First(cacheAfterCert, Filter(IdField, byCert.value.userid, false)) == Some(byCert.value)
      && byId == First(cacheAfterCert, Filter(IdField, byCert.value.userid, false))
  {
    byCert := dir.FindUserByCert(userCn);
    cacheAfterCert := dir.cache;
    if byCert.Some? {
      SharedCacheHit(dir.cache, dir.store, byCert.value);
      byId := dir.FindUserById(byCert.value.userid);
    } else {
      byId := None;
    }
  }
}

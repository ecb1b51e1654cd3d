/** DataService.ts: a cache-aside accessor for user data over an HTTP
    client and a key-value cache.

    The cache is a map from key to entry; the TTL handed to `set` is
    recorded, expiry itself belongs to the cache service and is not
    modelled. The HTTP client is modelled by the outcome a request would
    settle with if it is issued; the requests actually issued are returned
    in order. */
module DataService {
  import opened Results
  import opened Logging
  import Decimal

  /** The JavaScript values the cache and the HTTP client hand back
      (numbers restricted to integers; an object or array is opaque). */
  datatype Value =
    | Undefined
    | Null
    | Bool(b: bool)
    | Num(n: int)
    | Str(s: string)
    | Object(ref: nat)

  /** JavaScript truthiness, as tested by `if (cachedData)`. */
  predicate Truthy(v: Value) {
    match v
    case Undefined => false
    case Null => false
    case Bool(b) => b
    case Num(n) => n != 0
    case Str(s) => s != ""
    case Object(_) => true
  }

  datatype Entry = Entry(value: Value, ttl: Option<int>)

  type Cache = map<string, Entry>

  datatype Request = Get(url: string) | Post(url: string, body: Value)

  /** The result of one service call with the cache it leaves, the requests
      it issued and the log it wrote. */
  datatype Step<+R, +E> = Step(result: R, cache: Cache, requests: seq<Request>, log: seq<LogEntry<E>>)

  /** TTL, in seconds, of an entry populated on a miss. */
  const CacheTtl: int := 300

  function UserKey(userId: int): string {
    "user:" + Decimal.IntToString(userId)
  }

  function UserUrl(userId: int): string {
    "/users/" + Decimal.IntToString(userId)
  }

  function ProfileUrl(userId: int): string {
    "/users/" + Decimal.IntToString(userId) + "/profile"
  }

  /** `cache.get(key)`: the stored value, `undefined` when absent. */
  function Lookup(cache: Cache, key: string): Value {
    if key in cache then cache[key].value else Undefined
  }

  /** Distinct users have distinct cache keys. */
  lemma UserKeyInjective(a: int, b: int)
    requires UserKey(a) == UserKey(b)
    ensures a == b
  {
    var prefix := "user:";
    assert UserKey(a)[|prefix|..] == Decimal.IntToString(a);
    assert UserKey(b)[|prefix|..] == Decimal.IntToString(b);
    Decimal.IntToStringInjective(a, b);
  }

  /** `getUserData(userId)`: a truthy cached value is returned without a
      request; otherwise `/users/<id>` is fetched, stored under the user's
      key with TTL 300 and returned; a failed fetch is rethrown and leaves
      the cache as it was. No entry but the user's own is touched. */
  function GetUserData<E>(cache: Cache, userId: int, response: Settled<Value, E>): (r: Step<Result<Value, E>, E>)
    ensures forall k :: k != UserKey(userId) ==> Lookup(r.cache, k) == Lookup(cache, k)
    ensures r.cache.Keys <= cache.Keys + {UserKey(userId)}
    ensures Truthy(Lookup(cache, UserKey(userId))) ==>
              r.result == Success(Lookup(cache, UserKey(userId))) && r.requests == [] && r.cache == cache
    ensures !Truthy(Lookup(cache, UserKey(userId))) ==> r.requests == [Get(UserUrl(userId))]
    ensures r.result.Failure? <==> !Truthy(Lookup(cache, UserKey(userId))) && response.Rejected?
    ensures r.result.Failure? ==> r.result.error == response.error && r.cache == cache
    ensures !Truthy(Lookup(cache, UserKey(userId))) && response.Resolved? ==>
              r.result == Success(response.value) && r.cache == cache[UserKey(userId) := Entry(response.value, Some(CacheTtl))]
  {
    var key := UserKey(userId);
    var id := Decimal.IntToString(userId);
    var cached := Lookup(cache, key);
    if Truthy(cached) then
      Step(Success(cached), cache, [], [Info("User data found in cache for user " + id)])
    else
      var fetching := Info("Fetching user data from API for user " + id);
      match response
      case Resolved(data) =>
        Step(Success(data), cache[key := Entry(data, Some(CacheTtl))], [Get(UserUrl(userId))], [fetching])
      case Rejected(e) =>
        Step(Failure(e), cache, [Get(UserUrl(userId))],
             [fetching, Error("Failed to fetch user data for user " + id, Some(e))])
  }

  /** `updateUserProfile(userId, profileData)`: post the profile; on success
      delete exactly the user's cache entry and answer true; on failure
      answer false and leave the cache alone. Never throws. */
  function UpdateUserProfile<E>(cache: Cache, userId: int, profile: Value, response: Settled<Value, E>): (r: Step<bool, E>)
    ensures r.requests == [Post(ProfileUrl(userId), profile)]
    ensures r.result <==> response.Resolved?
    ensures r.result ==> r.cache == cache - {UserKey(userId)}
    ensures !r.result ==> r.cache == cache
    ensures r.result ==> r.log == [Info("User profile updated for user " + Decimal.IntToString(userId))]
    ensures !r.result ==>
              r.log == [Error("Failed to update user profile for user " + Decimal.IntToString(userId), Some(response.error))]
  {
    var id := Decimal.IntToString(userId);
    var post := Post(ProfileUrl(userId), profile);
    match response
    case Resolved(_) =>
      Step(true, cache - {UserKey(userId)}, [post], [Info("User profile updated for user " + id)])
    case Rejected(e) =>
      Step(false, cache, [post], [Error("Failed to update user profile for user " + id, Some(e))])
  }

  /** A read that fetched a value populates the cache so that the next read
      of the same user issues no request and returns that value, exactly
      when the value is truthy: a falsy value is stored but still misses. */
  lemma ReadThroughThenHit<E>(cache: Cache, userId: int, data: Value, next: Settled<Value, E>)
    requires !Truthy(Lookup(cache, UserKey(userId)))
    ensures var first := GetUserData<E>(cache, userId, Resolved(data));
            var second := GetUserData(first.cache, userId, next);
            && (second.requests == [] <==> Truthy(data))
            && (Truthy(data) ==> second.result == Success(data))
  {
  }

  /** A failed fetch is not cached: the next read fetches again. */
  lemma FailureNotCached<E>(cache: Cache, userId: int, error: E, next: Settled<Value, E>)
    requires !Truthy(Lookup(cache, UserKey(userId)))
    ensures var first := GetUserData(cache, userId, Rejected(error));
            GetUserData(first.cache, userId, next).requests == [Get(UserUrl(userId))]
  {
  }

  /** After a successful profile update the next read of that user fetches
      again, whatever was cached before. */
  lemma UpdateForcesRefetch<E>(cache: Cache, userId: int, profile: Value, ack: Value, next: Settled<Value, E>)
    ensures var update := UpdateUserProfile<E>(cache, userId, profile, Resolved(ack));
            GetUserData(update.cache, userId, next).requests == [Get(UserUrl(userId))]
  {
  }

  /** A failed profile update changes nothing a later read can observe. */
  lemma FailedUpdateKeepsCache<E>(cache: Cache, userId: int, other: int, profile: Value, error: E, next: Settled<Value, E>)
    ensures var update := UpdateUserProfile(cache, userId, profile, Rejected(error));
            GetUserData(update.cache, other, next) == GetUserData(cache, other, next)
  {
  }

  /** A profile update for one user does not change what a read of any
      other user returns or requests. */
  lemma UpdateIsolatesOtherUsers<E>(cache: Cache, userId: int, other: int, profile: Value, response: Settled<Value, E>, next: Settled<Value, E>)
    requires other != userId
    ensures var update := UpdateUserProfile(cache, userId, profile, response);
            var before := GetUserData(cache, other, next);
            var after := GetUserData(update.cache, other, next);
            after.result == before.result && after.requests == before.requests
  {
    if UserKey(other) == UserKey(userId) {
      UserKeyInjective(other, userId);
    }
    var update := UpdateUserProfile(cache, userId, profile, response);
    assert Lookup(update.cache, UserKey(other)) == Lookup(cache, UserKey(other));
  }

  /** A cache primed for user 123 under "user:123" answers without a
      request and returns the primed value. */
  lemma PrimedCacheExample<E>(data: Value, next: Settled<Value, E>)
    requires Truthy(data)
    ensures var r := GetUserData(map["user:123" := Entry(data, None)], 123, next);
            r.result == Success(data) && r.requests == []
  {
    Decimal.NatToStringExamples();
    assert UserKey(123) == "user:123";
  }
}

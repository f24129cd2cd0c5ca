/**
 * The three session middlewares and the read-through token caches behind
 * them: a session cookie is resolved to a user, owner or chair through an
 * in-process cache that falls back to the database on a miss.
 */
module Auth {
  import opened Base

  /** Go error values, as far as `errors.Is` can tell them apart. */
  datatype GoError =
    | ErrNoRows                           // sql.ErrNoRows
    | Message(text: string)               // errors.New(text)
    | Wrapped(text: string, cause: GoError) // fmt.Errorf("...%w", cause)

  /** `errors.Is`: the error or one of the errors it wraps is the target. */
  predicate Is(err: GoError, target: GoError)
  {
    err == target || (err.Wrapped? && Is(err.cause, target))
  }

  /** The three kinds of session. */
  datatype Realm = App | Owner | Chair

  function CookieName(realm: Realm): string
  {
    match realm
    case App => "app_session"
    case Owner => "owner_session"
    case Chair => "chair_session"
  }

  /** The key under which the authenticated entity is put into the request context. */
  function ContextKey(realm: Realm): string
  {
    match realm
    case App => "user"
    case Owner => "owner"
    case Chair => "chair"
  }

  /** The error `getCache*` reports for a token the database does not know. */
  function InvalidToken(): GoError
  {
    Message("invalid access token")
  }

  /**
   * `getCacheUser`/`getCacheOwner`/`getCacheChair` as a function of the cache
   * and of what the database query would answer: a cached token is returned
   * as is; otherwise the query's row, with `sql.ErrNoRows` replaced by a new
   * error that no longer wraps it.
   */
  function CachedLookup<E>(entries: map<string, E>, token: string, query: Result<E, GoError>): Result<E, GoError>
  {
    if token in entries then Success(entries[token])
    else if query.Failure? && Is(query.error, ErrNoRows) then Failure(InvalidToken())
    else query
  }

  /** The cache after one lookup: a miss that found a row adds it, nothing else changes. */
  function CacheAfter<E>(entries: map<string, E>, token: string, query: Result<E, GoError>): map<string, E>
  {
    if token !in entries && query.Success? then entries[token := query.value] else entries
  }

  /** The in-process cache of one realm, keyed by access token. */
  class TokenCache<E> {
    var entries: map<string, E>

    constructor ()
      ensures entries == map[]
    {
      entries := map[];
    }

    method Get(token: string) returns (r: Option<E>)
      ensures r == if token in entries then Some(entries[token]) else None
    {
      if token in entries {
        return Some(entries[token]);
      }
      return None;
    }

    method Set(token: string, entity: E)
      modifies this
      ensures entries == old(entries)[token := entity]
    {
      entries := entries[token := entity];
    }

    /**
     * The read-through lookup. `query` is what the database answers for this
     * token; `queried` tells whether the database was asked at all.
     */
    method GetCached(token: string, query: Result<E, GoError>) returns (r: Result<E, GoError>, queried: bool)
      modifies this
      ensures queried <==> token !in old(entries)
      ensures r == CachedLookup(old(entries), token, query)
      ensures entries == CacheAfter(old(entries), token, query)
    {
      var cached := Get(token);
      if cached.Some? {
        return Success(cached.value), false;
      }
      if query.Failure? {
        if Is(query.error, ErrNoRows) {
          return Failure(InvalidToken()), true;
        }
        return query, true;
      }
      Set(token, query.value);
      return query, true;
    }
  }

  /** What a middleware does with the request. */
  datatype AuthOutcome<E> =
    | Unauthorized(message: string)          // 401, `next` is not called
    | InternalServerError(error: GoError)    // 500, `next` is not called
    | Next(contextKey: string, entity: E)    // `next` runs once with the entity in the context

  /** A cookie that is absent or empty carries no token. */
  predicate HasToken(cookie: Option<string>)
  {
    cookie.Some? && cookie.value != ""
  }

  /** A middleware's decision, given the cache before the request and what the database would answer. */
  function AuthOf<E>(realm: Realm, entries: map<string, E>, cookie: Option<string>, query: Result<E, GoError>): AuthOutcome<E>
  {
    if !HasToken(cookie) then Unauthorized(CookieName(realm) + " cookie is required")
    else
      match CachedLookup(entries, cookie.value, query)
      case Failure(e) => if Is(e, ErrNoRows) then Unauthorized("invalid access token") else InternalServerError(e)
      case Success(entity) => Next(ContextKey(realm), entity)
  }

  /** `appAuthMiddleware`, `ownerAuthMiddleware` and `chairAuthMiddleware`, differing only in the realm. */
  method Authenticate<E>(realm: Realm, cache: TokenCache<E>, cookie: Option<string>, query: Result<E, GoError>)
    returns (r: AuthOutcome<E>, queried: bool)
    modifies cache
    ensures queried <==> HasToken(cookie) && cookie.value !in old(cache.entries)
    ensures r == AuthOf(realm, old(cache.entries), cookie, query)
    ensures cache.entries == if HasToken(cookie) then CacheAfter(old(cache.entries), cookie.value, query) else old(cache.entries)
  {
    if !HasToken(cookie) {
      return Unauthorized(CookieName(realm) + " cookie is required"), false;
    }
    var found;
    found, queried := cache.GetCached(cookie.value, query);
    if found.Failure? {
      if Is(found.error, ErrNoRows) {
        return Unauthorized("invalid access token"), queried;
      }
      return InternalServerError(found.error), queried;
    }
    return Next(ContextKey(realm), found.value), queried;
  }

  /** A missing or empty session cookie is answered 401 naming the cookie, before any lookup. */
  lemma MissingCookieRejected<E>(realm: Realm, entries: map<string, E>, cookie: Option<string>, query: Result<E, GoError>)
    ensures !HasToken(cookie) <==> AuthOf(realm, entries, cookie, query) == Unauthorized(CookieName(realm) + " cookie is required")
  {
    if HasToken(cookie) {
      var r := AuthOf(realm, entries, cookie, query);
      if r.Unauthorized? {
        var m := r.message;
        assert m == "invalid access token";
        assert m[0] == 'i';
        assert (CookieName(realm) + " cookie is required")[0] != 'i';
      }
    }
  }

  /** A cached token resolves to its cached entity whatever the database would answer. */
  lemma CacheHitIgnoresDatabase<E>(entries: map<string, E>, token: string, query: Result<E, GoError>, other: Result<E, GoError>)
    requires token in entries
    ensures CachedLookup(entries, token, query) == CachedLookup(entries, token, other) == Success(entries[token])
    ensures CacheAfter(entries, token, query) == entries
  {
  }

  /** A miss that finds the row caches it, so the next lookup of that token is a hit with the same entity. */
  lemma MissThenHit<E>(entries: map<string, E>, token: string, entity: E, next: Result<E, GoError>)
    requires token !in entries
    ensures CachedLookup(entries, token, Success(entity)) == Success(entity)
    ensures var after := CacheAfter(entries, token, Success(entity));
      token in after && CachedLookup(after, token, next) == Success(entity)
  {
  }

  /**
   * The cache only grows, a cached token keeps its entity, and every new
   * entry is the row a successful query returned; a failed query changes
   * nothing.
   */
  lemma CacheOnlyGrows<E>(entries: map<string, E>, token: string, query: Result<E, GoError>)
    ensures var after := CacheAfter(entries, token, query);
      && (forall t :: t in entries ==> t in after && after[t] == entries[t])
      && (forall t :: t in after && t !in entries ==> t == token && query == Success(after[t]))
      && (query.Failure? ==> after == entries)
  {
  }

  /** No error `getCache*` returns is `sql.ErrNoRows`, nor wraps it. */
  lemma LookupNeverNoRows<E>(entries: map<string, E>, token: string, query: Result<E, GoError>)
    ensures var r := CachedLookup(entries, token, query);
      r.Failure? ==> !Is(r.error, ErrNoRows)
  {
  }

  /**
   * Hence a token the database does not know is answered 500 with
   * "invalid access token", never 401: the middleware's `sql.ErrNoRows`
   * test cannot succeed, and the only 401 is the cookie check.
   */
  lemma UnknownTokenIsServerError<E>(realm: Realm, entries: map<string, E>, cookie: Option<string>, query: Result<E, GoError>)
    ensures HasToken(cookie) && cookie.value !in entries && query == Failure(ErrNoRows)
      ==> AuthOf(realm, entries, cookie, query) == InternalServerError(InvalidToken())
    ensures AuthOf(realm, entries, cookie, query).Unauthorized? ==> !HasToken(cookie)
  {
    if HasToken(cookie) {
      LookupNeverNoRows(entries, cookie.value, query);
    }
  }

  /**
   * The request reaches `next` exactly when it carries a token that is
   * cached or found, with the entity under the realm's context key.
   */
  lemma AuthenticatedIff<E>(realm: Realm, entries: map<string, E>, cookie: Option<string>, query: Result<E, GoError>)
    ensures var r := AuthOf(realm, entries, cookie, query);
      && (r.Next? <==> HasToken(cookie) && (cookie.value in entries || query.Success?))
      && (r.Next? ==>
            && r.contextKey == ContextKey(realm)
            && r.entity == if cookie.value in entries then entries[cookie.value] else query.value)
  {
  }
}

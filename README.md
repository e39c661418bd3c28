# fast_witter session and route core, in Dafny

This project models the request-scoped session machinery of the fast_witter
web service and the routes built on it:

- the session object: its user, payload, key and type, and the hex key it
  mints;
- the dependency that resolves a session from cookie, header or query key,
  hydrates its user from the users table, sets the cookie and writes the
  session back to the cache;
- the `/auth` routes (me, sign-in, sign-up, logout) and the `/posts` routes
  (create, list, update, delete, like);
- the parameterised SQL text the data layer builds for inserts, updates,
  soft and hard deletes and listings.

Python values become the `Values.Value` datatype, and its truthiness is
`Values.Truthy`. A dict becomes a `map`, or a sequence of items where
insertion order matters. The cache (Redis) becomes `Store.Cache`, a map of
decoded JSON payloads with an optional TTL. The users and posts tables
become `Tables.UserTable` and `Tables.PostTable`. The session is a class,
`Sessions.Session`, because the source mutates it in place. Its value
semantics are `Sessions.SessionState`, the specification the methods are
proved against.

A request is modelled end to end by `SessionDeps.Serve`:

1. The session is resolved from the cache.
2. The cookie is computed for a cookie session.
3. The handler runs, modelled as the sequence of session mutations it makes
   (`SessionDeps.Mutation`) and a flag saying whether it raised.
4. The session is written back to the cache unless the handler raised.

Each route that changes state is a method over the resolved session, the
tables and the cache. The listing route changes nothing and is a function of
the session state. Every route's
replies are `Responses.Reply`, with the default messages of the error
helpers.

The randomness of `secrets.token_hex(24)` is a parameter: the 24 random
bytes (`entropy`). The password hash is a parameter too: a function of
password and salt. Database and cache I/O are the map updates described
above.

Behaviour worth knowing:

- **A raising handler skips the writeback.** The dependency has no
  `try`/`finally` around its `yield` (misc/depends/session.py:30-52), so a
  handler that raises skips the writeback. The 401 raised by the posts
  router's `check_auth` is such a handler. `SessionDeps.Serve` states this.
- **The cookie's max-age is computed before the handler runs**
  (misc/depends/session.py:47-48). A sign-in therefore sends the anonymous
  max-age while the cache stores the long TTL
  (`SessionDeps.LoginCookieKeepsAnonymousAge`).
- **A stored session payload need not carry `user_id`.** The code reads it
  with `data['user_id']` (misc/session.py:69-73), so a non-empty payload
  without it raises; `SessionDeps.Hydrate` returns None for that. Every
  session payload the service itself writes carries the key
  (`SessionDeps.RequestKeepsCacheWellFormed`).
- **The session key can change.** The session has a key setter
  (misc/session.py:75-77), modelled as `Sessions.Session.SetKey`.

## Model

| member | source | states |
|---|---|---|
| Users.Default | models/users.py:7-15 | a default user has id 0, no `en`, the empty name, no join date, and is not authenticated |
| Users.Anonymous | models/users.py:18-19 | the anonymous user is the all-default user and is not authenticated |
| Users.FromRow | models/users.py:22-23 | a user built from a row carries the row's id, `en`, name and join date, and is authenticated exactly when its id is non-zero |
| Users.AuthenticatedIffNonzeroId | models/users.py:13-15 | `is_authenticated` is `bool(id)`: true exactly for a non-zero id |
| Sessions.NewKey | misc/session.py:80-81 | a new key is 48 lower-case hex characters and decodes back to the 24 random bytes it was made from |
| Sessions.HexDecodeOfTokenHex | misc/session.py:80-81 | hex decoding inverts the hex encoding of any byte string |
| Sessions.Initial | misc/session.py:26-37 | a new session is anonymous with max-age 3600. The type defaults to cookie. A non-empty key is kept, otherwise a fresh hex key is minted. A non-empty payload is kept, otherwise the payload is `{'user_id': None}` |
| Sessions.SessionState.SessionUserId | misc/session.py:69-73 | an empty payload reads as None. A payload with `user_id` reads as that value. A non-empty payload without it raises KeyError, and only that payload does |
| Sessions.SessionState.WithUser | misc/session.py:43-45 | `set_user` sets the user and `user_id`, adds no other key, leaves other entries, key and type alone, and `session_user_id` then reads the user's id |
| Sessions.SessionState.WithoutUser | misc/session.py:47-49 | `reset_user` leaves the anonymous user, a payload holding only `user_id` None, and max-age 3600, under the same key |
| Sessions.SessionState.WithKey | misc/session.py:75-77 | the key setter changes the key and nothing else |
| Sessions.WithUserIdempotent | misc/session.py:43-45 | setting the same user twice equals setting it once |
| Sessions.MaxAgeFollowsUser | misc/session.py:59-63 | max-age is 2592000 after setting a user with a non-zero id, else 3600, and 3600 after a reset |
| Sessions.SetThenResetClearsUserId | misc/session.py:43-49 | set then reset leaves the payload `{'user_id': None}` under the same key |
| Sessions.Session.constructor | misc/session.py:26-37 | the constructed object's state is `Initial` of its arguments, and it satisfies the user/`user_id` invariant |
| Sessions.Session.SetUser | misc/session.py:43-45 | the object's new state is `WithUser` of its old state, and the invariant holds |
| Sessions.Session.ResetUser | misc/session.py:47-49 | the object's new state is `WithoutUser` of its old state, and the invariant holds |
| Sessions.Session.SetKey | misc/session.py:75-77 | the object's new state is `WithKey` of its old state, and the invariant holds |
| Store.Lookup | misc/redis.py:29-36 | a read hits exactly when the key holds a decodable payload, and returns that payload; undecodable data reads as a miss |
| Store.SetExThenGet | misc/redis.py:47-48 | after `setex` the key reads back the value written and every other key reads as before |
| Store.Cache.Get | misc/redis.py:29-36 | returns the decoded payload under the key, or None on a miss or undecodable data |
| Store.Cache.Set | misc/redis.py:39-40 | overwrites the key with the payload and no TTL |
| Store.Cache.SetEx | misc/redis.py:47-48 | overwrites the key with the payload and the given TTL |
| Store.Cache.Delete | misc/redis.py:43-44 | removes the key and nothing else |
| Tables.UserById | db/users.py:57-68 | `get_user` finds the row whose id is the given integer; any other value finds none |
| Tables.UserTable.GetUserByCreds | db/users.py:27-40 | returns None exactly when no row has both the name and the password hash; otherwise returns the user of such a row |
| Tables.UserTable.GetUserByName | db/users.py:43-55 | returns None exactly when the name is free; otherwise returns a user of a row with that name |
| Tables.UserTable.CreateUser | db/users.py:9-24 | inserts exactly one row under the next serial id, whose user is authenticated and carries the name |
| Tables.PostTable.Get | db/posts.py:47-58 | `get_post` returns the row with the id, or None |
| Tables.PostTable.Create | db/posts.py:12-28 | inserts exactly one post under the next serial id with the author, title and body and no likes |
| Tables.PostTable.Update | db/posts.py:31-44 | overwrites the given columns of an existing row and leaves every other column and row alone; a missing row changes nothing |
| Tables.PostTable.Delete | db/posts.py:84-95 | removes the row and returns it, or returns None when it was missing |
| SessionDeps.CacheKey | misc/depends/session.py:116-117 | the cache key is `session_` followed by the session key |
| SessionDeps.CacheKeyInjective | misc/depends/session.py:116-117 | distinct session keys never share a cache key |
| SessionDeps.FirstHitIsEarliest | misc/depends/session.py:62-73 | the scan finds nothing exactly when no candidate has a non-empty key present in the cache; otherwise it stops at the earliest such candidate |
| SessionDeps.Hydrate | misc/depends/session.py:108-113 | raises exactly when reading `user_id` raises. A truthy `user_id` naming an existing row attaches that row's user through `set_user`. A falsy `user_id`, or one naming no row, leaves the session unchanged |
| SessionDeps.FirstHit | misc/depends/session.py:62-73 | a hit is for a non-empty candidate key, of one of the candidates, whose cache entry holds the returned payload |
| SessionDeps.Resolve | misc/depends/session.py:55-77 | raises only when some candidate hit. A resolved session has a non-empty key, and the key and type of the hitting candidate. With no hit it is a fresh anonymous cookie session whose hex key decodes to the random bytes |
| SessionDeps.CookieFor | misc/depends/session.py:47-48 | a cookie is set exactly for a cookie session. It is named `sid`, carries the session key, and its max-age is 2592000 for an authenticated user, else 3600 |
| SessionDeps.ResolveIdentity | misc/depends/session.py:55-77 | the resolved session has the key and type of the earliest hitting candidate; with no hit it is a fresh anonymous cookie session with a hex key |
| SessionDeps.CookieWins | misc/depends/session.py:62-73 | a cookie present in the cache decides the session whatever header and query say |
| SessionDeps.MissFallsThrough | misc/depends/session.py:62-73 | an absent, empty or unknown cookie falls through to the header, then to the query key |
| SessionDeps.NoCredentialIsFresh | misc/depends/session.py:75-77 | a request with no key gets a fresh anonymous cookie session whose key decodes to the random bytes |
| SessionDeps.SameKeyAnyTransport | misc/depends/session.py:55-89 | one stored key resolves to the same session by cookie, header or query; only the session type differs |
| SessionDeps.HydrateIgnoresKind | misc/depends/session.py:108-113 | hydration does not depend on the session type |
| SessionDeps.MissingUserKeepsStaleId | misc/depends/session.py:108-113 | a `user_id` whose user no longer exists leaves the session anonymous with the stale id still in its payload |
| SessionDeps.Writeback | misc/depends/session.py:92-98 | after `save_to_redis` the cache key reads back the payload with TTL max-age and every other key reads as before |
| SessionDeps.ApplyAllKeepsUserId | misc/session.py:43-49 | no sequence of session mutations removes `user_id` from a payload that has it |
| SessionDeps.ResolveOnWellFormed | misc/depends/session.py:55-77 | when every stored payload is empty or carries `user_id`, resolution never raises and the resolved payload carries `user_id` |
| SessionDeps.WritebackKeepsWellFormed | misc/depends/session.py:92-98 | writing back a payload with `user_id` keeps every stored payload readable |
| SessionDeps.RequestKeepsCacheWellFormed | misc/depends/session.py:30-52 | a request over a cache of readable payloads does not raise in resolution, and leaves every stored payload readable whatever the handler does |
| SessionDeps.LoginCookieKeepsAnonymousAge | misc/depends/session.py:47-52 | a sign-in on an anonymous cookie session sends the cookie with max-age 3600 while the cache stores TTL 2592000 under the same key |
| SessionDeps.SetThenResetPersistsNull | misc/depends/session.py:52 | set then reset in one request persists `{'user_id': None}` with TTL 3600 under the same key |
| SessionDeps.GetFromStore | misc/depends/session.py:80-89 | a cache miss gives None; a hit gives a new session with the stored key, type and payload |
| SessionDeps.GetSessionUser | misc/depends/session.py:108-113 | the new session state is `Hydrate` of the old: the user of a truthy, existing `user_id` is attached, anything else leaves the state alone; the call raises exactly when `Hydrate` says it raises, and then leaves the state alone |
| SessionDeps.GetSession | misc/depends/session.py:55-77 | the scan over cookie, header and query returns a new session whose state is the resolved one, and raises exactly when resolution raises |
| SessionDeps.SaveToStore | misc/depends/session.py:92-98 | the cache becomes `Writeback` of the session's state |
| SessionDeps.RemoveFromStore | misc/depends/session.py:101-105 | the session's cache key is deleted and nothing else |
| SessionDeps.Serve | misc/depends/session.py:30-52 | the cookie is set from the resolved session before the handler. The final state is the handler's mutations applied to the resolved state. The cache receives the writeback of that state, unless the handler raised, in which case the cache is unchanged |
| AuthRoutes.GetMe | service/routers/auth.py:23-30 | `/me` answers the session's user with the session key as token |
| AuthRoutes.Login | service/routers/auth.py:33-48 | an authenticated session gets 401 and unknown credentials get 404, both leaving the session alone; otherwise the session's user becomes the user of a row matching name and hashed password |
| AuthRoutes.Register | service/routers/auth.py:51-81 | 401 for an authenticated session, then 400 "This name already exist" for a taken name, both changing nothing; otherwise exactly one row is added, its user set on the session, and unique names stay unique |
| AuthRoutes.Logout | service/routers/auth.py:84-89 | the session becomes anonymous under the same key and the reply says so |
| AuthRoutes.SignedInSessionResumes | service/routers/auth.py:47-48 | once a signed-in cookie session is written back, the next request with that cookie resolves to exactly the same signed-in state |
| PostsRoutes.CheckAuth | service/routers/posts.py:22-27 | the guard passes exactly for an authenticated session and otherwise answers 401 |
| PostsRoutes.PostKey | service/routers/posts.py:168 | the like-list key is `post_` followed by the post id in decimal |
| PostsRoutes.PostKeyIsNotSessionKey | service/routers/posts.py:54-60 | the cache key of a like list is never a session's cache key |
| PostsRoutes.PostKeyInjective | service/routers/posts.py:167-170 | distinct posts have distinct like-list keys |
| PostsRoutes.ClampPaging | service/routers/posts.py:78-79 | the limit is clamped into 1..20 and the page to at least 1, and values already in range are kept |
| PostsRoutes.ClampPagingIdempotent | service/routers/posts.py:78-79 | clamping twice equals clamping once |
| PostsRoutes.ListQuery | db/posts.py:61-75 | the page's statement selects every column of `posts` with no WHERE and no ORDER BY, with the page size as LIMIT and `limit * (page - 1)` as OFFSET |
| PostsRoutes.PageOffset | db/posts.py:72 | for a page size of at least 1 and a page of at least 1, the offset `limit * (page - 1)` is non-negative and is zero exactly on the first page |
| PostsRoutes.ListQueryPaging | db/posts.py:61-75 | a clamped page's offset is non-negative; the first page has no OFFSET clause and every page has a LIMIT |
| PostsRoutes.GetPosts | service/routers/posts.py:66-96 | 401 exactly for an anonymous session; otherwise the reply echoes the clamped page and limit and the page's listing statement |
| PostsRoutes.LikesOf | service/routers/posts.py:167-171 | a missing cache entry or a non-list `likes` fails; a missing `likes` reads as the empty list |
| PostsRoutes.RemoveFirst | service/routers/posts.py:171-172 | `list.remove` drops exactly the first element equal to the id under Python `==`, where `True` equals 1 and `False` equals 0, keeping the rest in order; a list without such an element is unchanged |
| PostsRoutes.RemoveDropsEarliest | service/routers/posts.py:172 | removing 1 from `[1, "x", 1]` drops the earlier 1 and keeps the later one |
| PostsRoutes.ToggleLike | service/routers/posts.py:171-174 | when the id is in the list under Python `==` the toggle removes its first occurrence; otherwise it appends `Int(uid)` at the end |
| PostsRoutes.ToggleFlipsMembership | service/routers/posts.py:171-174 | on a list holding the id at most once under Python `==`, a like toggle flips the user's membership, keeps every other member, and keeps the id held at most once |
| PostsRoutes.ToggleTwiceRestores | service/routers/posts.py:171-174 | liking twice restores the members; from a list without the user it restores the list exactly |
| PostsRoutes.ToggleKeepsOthers | service/routers/posts.py:171-174 | a toggle leaves the other users' likes in the same order |
| PostsRoutes.LikeThenUnlike | service/routers/posts.py:171-174 | on a fresh post a first like gives exactly the user's id and a second one gives the empty list again |
| PostsRoutes.CachedTrueIsUserOne | service/routers/posts.py:171-172 | a cached `True` counts as user 1's like, so user 1's toggle removes it |
| PostsRoutes.CreatePost | service/routers/posts.py:37-63 | 401 and no change for an anonymous session; otherwise one post by the session's user is inserted and its cache like list is started empty |
| PostsRoutes.UpdatePost | service/routers/posts.py:99-125 | 401, then 404 for a missing post, then 403 for another author's post, each changing nothing; with no field given the post is returned unchanged, otherwise only the given fields are overwritten |
| PostsRoutes.DeletePost | service/routers/posts.py:128-151 | 401, 404 and 403 in the same order, each changing nothing; otherwise exactly that row is removed |
| PostsRoutes.LikePost | service/routers/posts.py:154-185 | 401, then 404 for a missing post, then 500 for a missing or non-list like list, each leaving the cache alone. Otherwise the like is toggled, the cache entry replaced by one holding only the new list, and the post returned with it |
| Text.NatToStringInjective | misc/db.py:123 | distinct numbers render as distinct digit strings |
| Text.ParseNatOfNatToString | misc/db.py:123 | reading a rendered number back gives the number |
| Text.IntToStringInjective | service/routers/posts.py:168 | distinct integers render as distinct strings |
| QueryBuilder.KeptIsFilter | misc/db.py:115-120 | an item is bound exactly when it is in the data and passes the allow/deny filter |
| QueryBuilder.KeptOfConcat | misc/db.py:115-120 | filtering keeps the data order |
| QueryBuilder.PlaceholdersDistinct | misc/db.py:123 | distinct numbers give distinct `$n` placeholders |
| QueryBuilder.Create | misc/db.py:102-131 | the INSERT names the kept fields in data order with placeholders `$1..$n`, and binds their values in the same order |
| QueryBuilder.SetClauses | misc/db.py:148-162 | the SET list has `key = $i` for each kept item numbered consecutively, then the atime clause when asked for |
| QueryBuilder.Update | misc/db.py:134-170 | the UPDATE binds the kept values, then the primary key at the placeholder right after them |
| QueryBuilder.UpdateKeyPlaceholderIsLast | misc/db.py:164-165 | the key's placeholder numbers the last bound value and is none of the SET placeholders |
| QueryBuilder.UpdateByWhereFresh | misc/db.py:173-210 | with the caller's list left alone, SET placeholders continue after the caller's values, and the statement binds the caller's values followed by the kept ones |
| QueryBuilder.UpdateByWhere | misc/db.py:173-210 | as written: the caller's list, or the one shared default, is extended in place by the kept values |
| QueryBuilder.SharedDefaultLeak | misc/db.py:178 | two calls relying on the default list: the second numbers its only placeholder `$2` and binds the first call's value too |
| QueryBuilder.FreshDefaultNoLeak | misc/db.py:178 | the second of those calls given a fresh list binds only its own value, at `$1` |
| QueryBuilder.IdWheres | misc/db.py:220-227 | the WHERE list is `id = $1`, then `k = $2`, … for the data items, with the key bound first |
| QueryBuilder.DisableByWhere | misc/db.py:213-242 | the soft delete sets `en = false`, with the dtime clause when asked for, under the id-and-data WHERE, and binds key then data values |
| QueryBuilder.DeleteByWhere | misc/db.py:245-272 | the delete uses the same WHERE and bound values |
| QueryBuilder.OrderTerm | misc/db.py:294 | an entry with a leading `-` becomes the rest of it followed by ` DESC`; any other entry is kept |
| QueryBuilder.WhereClause | misc/db.py:287-288 | the WHERE clause is empty exactly when the condition is, and otherwise is `WHERE ` followed by the condition |
| QueryBuilder.OrderClause | misc/db.py:293-294 | the ORDER BY clause is empty exactly when no order is given, and otherwise is `ORDER BY ` followed by the order terms joined by `, ` |
| QueryBuilder.LimitClause | misc/db.py:289-290 | the LIMIT clause is empty exactly when the limit is None or 0 |
| QueryBuilder.OffsetClause | misc/db.py:291-292 | the OFFSET clause is empty exactly when the offset is None or 0 |
| QueryBuilder.GetListQuery | misc/db.py:285-296 | the statement is `SELECT`, the field list, `FROM` and the table, then the WHERE, ORDER BY, LIMIT and OFFSET clauses in that order, one space between each, empty clauses included |
| QueryBuilder.ConvertedKeepsOrder | misc/db.py:70-78 | conversion yields at most one model per record, and when every record converts the i-th model is the i-th record's |
| QueryBuilder.RecordsToModels | misc/db.py:70-78 | the list holds the models of the records that convert, in record order |

## Left out

- The cache TTL is stored but never expires: no clock is modelled.
- Cached payloads that decode to JSON other than an object are not
  modelled. Undecodable data is modelled and reads as a miss.
- A JSON object nested inside a payload, as an entry's value or as an
  item of a like list, is not modelled: `Values.Value` has no object case.
- JSON numbers with a fraction are not modelled. Under Python `==` a like
  cached as `1.0` would count as user 1's, as a cached `True` does.
- A `user_id` that is truthy but not an integer finds no user. The
  database driver's behaviour for such a value is not modelled.
- Sessions.SessionState.MaxAge: it is a plain function without a contract.
  Its two values are stated by `Sessions.MaxAgeFollowsUser`.
- AuthRoutes.Login: the 404 reply is returned without awaiting the error
  helper. The model gives it the 404 status and message. What the
  framework actually sends for an un-awaited coroutine is not modelled.
- AuthRoutes.Register: the 500 reply for a failed insert is not modelled.
  The users table never fails an insert here.
- PostsRoutes.LikePost: validating and serialising the reply against the
  post response model is not modelled. A like list holding a string that is
  not a number, or a null, would fail that validation with a 500 reply, and
  a cached `True` would be sent as `1`; the model answers the post with the
  toggled list as it is.
- PostsRoutes.DeletePost: the 500 reply for a delete that finds no row is
  not modelled. The row was just read, and concurrent requests are not
  modelled.
- PostsRoutes.CreatePost: the 500 reply for a failed insert is not
  modelled, for the same reason as for sign-up.
- PostsRoutes.GetPosts: the reply omits the items and the total count.
  - Filling each item's likes from the cache is not modelled
    (`add_post_likes_to_model`).
  - Running the listing statement is not modelled; only its text is.
- Executing SQL is not modelled: the data layer's statements appear only
  as text and bound values. `get`, `get_by_where` and `get_total` appear
  only as the table lookups of `Tables`.
- QueryBuilder.DisableByWhere, QueryBuilder.DeleteByWhere: the template's
  line breaks and indentation are written as single spaces.
- QueryBuilder dict arguments are item sequences. A key is assumed to
  occur once, as in a dict.
- Password hashing (bcrypt with the configured salt) is a function
  parameter.
- Request-body validation (name at least 4 characters, password at least
  8) is a precondition: the framework rejects other bodies before the
  route runs.
- Concurrency, connection pools and the framework's routing are not
  modelled.
- Store I/O failures are not modelled.
- Whether the framework attaches the session cookie to a reply the route
  builds itself is not modelled.
- QueryBuilder.UpdateByWhere models the caller's list as an object
  (`QueryBuilder.ValueList`). Aliasing between other Python lists is not
  modelled.
- The handler of a request is its sequence of session mutations and
  whether it raised. What else it does is modelled by the route methods
  separately.

## Findings

| source | as written | input that shows it | evidently intended | confidence | as-written member | corrected member |
|---|---|---|---|---|---|---|
| misc/db.py:178 | `update_by_where` extends its `values` argument in place, and the default `[]` is one list shared by every call | two calls without `values`, the second updating `body`: it reads `SET body = $2` and binds the first call's value as `$1` | each call without `values` starts from an empty list, so its placeholders start at `$1` and it binds only its own values | not executed | QueryBuilder.SharedDefaultLeak | QueryBuilder.FreshDefaultNoLeak |

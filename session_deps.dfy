/** Request-scoped session handling: the resolver that picks the first
    candidate key found in the cache, user hydration, the cookie, and the
    writeback after the handler. */
module SessionDeps {
  import opened Values
  import opened Users
  import opened Sessions
  import opened Store
  import opened Tables

  const SESSION_PREFIX: string := "session_"

  /** `cache_key`: the cache key a session is stored under. */
  function CacheKey(key: string): (r: string)
    ensures |r| == |SESSION_PREFIX| + |key|
    ensures r[..|SESSION_PREFIX|] == SESSION_PREFIX && r[|SESSION_PREFIX|..] == key
  {
    SESSION_PREFIX + key
  }

  /** Two sessions share a cache entry only when they share a key. */
  lemma CacheKeyInjective(a: string, b: string)
    ensures CacheKey(a) == CacheKey(b) <==> a == b
  {
    if CacheKey(a) == CacheKey(b) {
      assert a == CacheKey(a)[|SESSION_PREFIX|..];
    }
  }

  /** One raw credential off the request and the transport it came by. */
  datatype Candidate = Candidate(key: Option<string>, kind: SessionType)

  /** The candidates in the order they are tried: cookie, header, query. */
  function Candidates(query: Option<string>, header: Option<string>, cookie: Option<string>): seq<Candidate>
  {
    [Candidate(cookie, Cookie), Candidate(header, Headers), Candidate(query, Token)]
  }

  /** A candidate is looked up (`if key:`) and its cache entry exists. */
  predicate Hits(c: Candidate, entries: Entries) {
    KeyGiven(c.key) && Lookup(entries, CacheKey(c.key.value)).Some?
  }

  datatype Hit = Hit(key: string, kind: SessionType, data: Data)

  function HitOf(c: Candidate, entries: Entries): Hit
    requires Hits(c, entries)
  {
    Hit(c.key.value, c.kind, Lookup(entries, CacheKey(c.key.value)).value)
  }

  /** The loop of `get_session`: the first candidate that hits, if any. A
      hit is one of the candidates, with a non-empty key, and carries the
      payload stored under that key. */
  function FirstHit(cands: seq<Candidate>, entries: Entries): (r: Option<Hit>)
    ensures r.Some? ==> r.value.key != "" && Lookup(entries, CacheKey(r.value.key)) == Some(r.value.data)
    ensures r.Some? ==> exists i :: 0 <= i < |cands| && cands[i].key == Some(r.value.key) && cands[i].kind == r.value.kind
    decreases |cands|
  {
    if cands == [] then None
    else if Hits(cands[0], entries) then Some(HitOf(cands[0], entries))
    else FirstHit(cands[1..], entries)
  }

  /** FirstHit returns the earliest hitting candidate, and None exactly when
      no candidate hits. */
  lemma {:induction false} FirstHitIsEarliest(cands: seq<Candidate>, entries: Entries)
    ensures FirstHit(cands, entries).None? <==> forall i :: 0 <= i < |cands| ==> !Hits(cands[i], entries)
    ensures FirstHit(cands, entries).Some? ==>
      exists i :: 0 <= i < |cands| && Hits(cands[i], entries)
        && (forall j :: 0 <= j < i ==> !Hits(cands[j], entries))
        && FirstHit(cands, entries).value == HitOf(cands[i], entries)
  {
    if cands != [] {
      FirstHitIsEarliest(cands[1..], entries);
      if !Hits(cands[0], entries) {
        if FirstHit(cands, entries).Some? {
          var i :| 0 <= i < |cands| - 1 && Hits(cands[1..][i], entries)
            && (forall j :: 0 <= j < i ==> !Hits(cands[1..][j], entries))
            && FirstHit(cands[1..], entries).value == HitOf(cands[1..][i], entries);
          assert forall j :: 0 <= j < i + 1 ==> !Hits(cands[j], entries) by {
            forall j | 0 <= j < i + 1 ensures !Hits(cands[j], entries) {
              if j > 0 { assert cands[j] == cands[1..][j - 1]; }
            }
          }
          assert Hits(cands[i + 1], entries);
        } else {
          forall i | 0 <= i < |cands| ensures !Hits(cands[i], entries) {
            if i > 0 { assert cands[i] == cands[1..][i - 1]; }
          }
        }
      }
    }
  }

  /** `get_session_user`: attach the stored user when `user_id` is truthy and
      the user exists; otherwise leave the session as it is, stale `user_id`
      included. None stands for the KeyError of a non-empty payload without
      `user_id`. */
  function Hydrate(st: SessionState, users: map<int, UserRow>): (r: Option<SessionState>)
    ensures r.None? <==> st.SessionUserId() == KeyError
    ensures st.SessionUserId().Got? && Truthy(st.SessionUserId().v) && UserById(users, st.SessionUserId().v).Some? ==>
      r == Some(st.WithUser(UserById(users, st.SessionUserId().v).value))
    ensures st.SessionUserId().Got? && !(Truthy(st.SessionUserId().v) && UserById(users, st.SessionUserId().v).Some?) ==>
      r == Some(st)
  {
    match st.SessionUserId()
    case KeyError => None
    case Got(id) =>
      if Truthy(id) && UserById(users, id).Some? then Some(st.WithUser(UserById(users, id).value)) else Some(st)
  }

  /** `get_session`: the first hit, read back and hydrated; with no hit, a
      fresh anonymous cookie session. None when hydration raised. */
  function Resolve(cands: seq<Candidate>, entries: Entries, users: map<int, UserRow>, entropy: seq<byte>): (r: Option<SessionState>)
    requires |entropy| == 24
    ensures r.None? ==> FirstHit(cands, entries).Some?
    ensures r.Some? ==> r.value.key != ""
    ensures r.Some? && FirstHit(cands, entries).Some? ==>
      r.value.key == FirstHit(cands, entries).value.key && r.value.kind == FirstHit(cands, entries).value.kind
    ensures FirstHit(cands, entries).None? ==>
      r.Some? && r.value.user == Anonymous() && r.value.kind == Cookie && r.value.data == ANONYMOUS_DATA
      && IsHexKey(r.value.key) && HexDecode(r.value.key) == entropy
  {
    match FirstHit(cands, entries)
    case Some(h) => Hydrate(Initial(Some(h.kind), Some(h.key), Some(h.data), entropy), users)
    case None => Some(Initial(Some(Cookie), None, None, entropy))
  }

  /** The resolved session's key and transport are those of the earliest
      hitting candidate; no hit gives a fresh anonymous cookie session. */
  lemma ResolveIdentity(cands: seq<Candidate>, entries: Entries, users: map<int, UserRow>, entropy: seq<byte>)
    requires |entropy| == 24
    ensures var r := Resolve(cands, entries, users, entropy);
      r.Some? ==>
        (exists i :: 0 <= i < |cands| && Hits(cands[i], entries)
           && (forall j :: 0 <= j < i ==> !Hits(cands[j], entries))
           && r.value.key == cands[i].key.value && r.value.kind == cands[i].kind)
        || ((forall i :: 0 <= i < |cands| ==> !Hits(cands[i], entries))
           && r.value.kind == Cookie && IsHexKey(r.value.key) && r.value.user == Anonymous()
           && r.value.data == ANONYMOUS_DATA)
  {
    FirstHitIsEarliest(cands, entries);
  }

  /** A hitting cookie decides the session; header and query are never consulted. */
  lemma CookieWins(query: Option<string>, header: Option<string>, cookie: Option<string>, entries: Entries)
    requires Hits(Candidate(cookie, Cookie), entries)
    ensures FirstHit(Candidates(query, header, cookie), entries) == Some(Hit(cookie.value, Cookie, Lookup(entries, CacheKey(cookie.value)).value))
  {
  }

  /** An absent, empty or missing cookie falls through to header, then query. */
  lemma MissFallsThrough(query: Option<string>, header: Option<string>, cookie: Option<string>, entries: Entries)
    requires !Hits(Candidate(cookie, Cookie), entries)
    ensures FirstHit(Candidates(query, header, cookie), entries) == FirstHit(Candidates(query, header, None), entries)
    ensures !Hits(Candidate(header, Headers), entries) ==>
      FirstHit(Candidates(query, header, cookie), entries) == FirstHit(Candidates(query, None, None), entries)
  {
  }

  /** With no credential at all the request gets a fresh anonymous cookie session. */
  lemma NoCredentialIsFresh(entries: Entries, users: map<int, UserRow>, entropy: seq<byte>)
    requires |entropy| == 24
    ensures var r := Resolve(Candidates(None, None, None), entries, users, entropy);
      r.Some? && r.value.kind == Cookie && IsHexKey(r.value.key) && HexDecode(r.value.key) == entropy
      && r.value.user == Anonymous() && r.value.data == ANONYMOUS_DATA
  {
    FirstHitIsEarliest(Candidates(None, None, None), entries);
  }

  /** The same stored key presented on any one transport resolves to the same
      session, transport aside. */
  lemma SameKeyAnyTransport(key: string, entries: Entries, users: map<int, UserRow>, entropy: seq<byte>)
    requires |entropy| == 24 && key != "" && Lookup(entries, CacheKey(key)).Some?
    ensures var c := Resolve(Candidates(None, None, Some(key)), entries, users, entropy);
      var h := Resolve(Candidates(None, Some(key), None), entries, users, entropy);
      var q := Resolve(Candidates(Some(key), None, None), entries, users, entropy);
      c.Some? == h.Some? == q.Some?
      && (c.Some? ==> c.value.kind == Cookie && h.value == c.value.(kind := Headers) && q.value == c.value.(kind := Token))
  {
    var data := Lookup(entries, CacheKey(key)).value;
    var viaCookie := Candidates(None, None, Some(key));
    var viaHeader := Candidates(None, Some(key), None);
    var viaQuery := Candidates(Some(key), None, None);
    assert FirstHit(viaCookie, entries) == Some(Hit(key, Cookie, data));
    assert viaHeader[1..][0] == Candidate(Some(key), Headers);
    assert FirstHit(viaHeader, entries) == Some(Hit(key, Headers, data));
    assert viaQuery[1..][1..][0] == Candidate(Some(key), Token);
    assert FirstHit(viaQuery[1..], entries) == FirstHit(viaQuery[1..][1..], entries);
    assert FirstHit(viaQuery, entries) == Some(Hit(key, Token, data));
    var st := Initial(Some(Cookie), Some(key), Some(data), entropy);
    HydrateIgnoresKind(st, users, Headers);
    HydrateIgnoresKind(st, users, Token);
  }

  /** Hydration does not look at the transport. */
  lemma HydrateIgnoresKind(st: SessionState, users: map<int, UserRow>, kind: SessionType)
    ensures Hydrate(st.(kind := kind), users).Some? == Hydrate(st, users).Some?
    ensures Hydrate(st, users).Some? ==> Hydrate(st.(kind := kind), users).value == Hydrate(st, users).value.(kind := kind)
  {
  }

  /** A stored `user_id` whose user is gone leaves the session anonymous with
      the stale id still in its payload. */
  lemma MissingUserKeepsStaleId(st: SessionState, users: map<int, UserRow>, id: int)
    requires st.user == Anonymous() && USER_ID in st.data && st.data[USER_ID] == Int(id) && id !in users
    ensures Hydrate(st, users) == Some(st)
    ensures !IsAuthenticated(Hydrate(st, users).value.user) && Hydrate(st, users).value.data[USER_ID] == Int(id)
  {
  }

  /** The cookie set before the handler runs, with the max_age of that moment. */
  datatype SetCookie = SetCookie(name: string, value: string, maxAge: nat)

  function CookieFor(st: SessionState): (r: Option<SetCookie>)
    ensures r.Some? <==> st.kind == Cookie
    ensures r.Some? ==> r.value.name == COOKIE_SESSION_NAME && r.value.value == st.key
    ensures r.Some? ==> r.value.maxAge == (if IsAuthenticated(st.user) then AUTHENTICATED_EXPIRES else ANONYMOUS_EXPIRES)
  {
    if st.kind == Cookie then Some(SetCookie(COOKIE_SESSION_NAME, st.key, st.MaxAge())) else None
  }

  /** `save_to_redis`: the payload under the session's cache key, with TTL max_age. */
  function Writeback(entries: Entries, st: SessionState): (r: Entries)
    ensures CacheKey(st.key) in r && Lookup(r, CacheKey(st.key)) == Some(st.data)
    ensures r[CacheKey(st.key)].ttl == Some(st.MaxAge())
    ensures forall k :: k != CacheKey(st.key) ==> Lookup(r, k) == Lookup(entries, k)
  {
    entries[CacheKey(st.key) := Entry(Decoded(st.data), Some(st.MaxAge()))]
  }

  /** What a handler may do to the session between resolution and writeback. */
  datatype Mutation = SetUser(u: User) | ResetUser | SetKey(k: string)

  function Apply(st: SessionState, m: Mutation): SessionState {
    match m
    case SetUser(u) => st.WithUser(u)
    case ResetUser => st.WithoutUser()
    case SetKey(k) => st.WithKey(k)
  }

  function ApplyAll(st: SessionState, ms: seq<Mutation>): SessionState
    decreases |ms|
  {
    if ms == [] then st else Apply(ApplyAll(st, ms[..|ms| - 1]), ms[|ms| - 1])
  }

  /** Every stored session payload can be read by `session_user_id`: it is
      empty or carries `user_id`. */
  ghost predicate WellFormed(entries: Entries) {
    forall key :: Lookup(entries, CacheKey(key)).Some? ==>
      var d := Lookup(entries, CacheKey(key)).value; d == map[] || USER_ID in d
  }

  /** No mutation removes `user_id` from a payload. */
  lemma {:induction false} ApplyAllKeepsUserId(st: SessionState, ms: seq<Mutation>)
    requires USER_ID in st.data
    ensures USER_ID in ApplyAll(st, ms).data
    decreases |ms|
  {
    if ms != [] {
      ApplyAllKeepsUserId(st, ms[..|ms| - 1]);
    }
  }

  /** On a well-formed cache resolution never raises, and the resolved
      payload carries `user_id`. */
  lemma ResolveOnWellFormed(cands: seq<Candidate>, entries: Entries, users: map<int, UserRow>, entropy: seq<byte>)
    requires |entropy| == 24 && WellFormed(entries)
    ensures Resolve(cands, entries, users, entropy).Some?
    ensures USER_ID in Resolve(cands, entries, users, entropy).value.data
  {
    FirstHitIsEarliest(cands, entries);
    match FirstHit(cands, entries)
    case Some(h) =>
      var i :| 0 <= i < |cands| && Hits(cands[i], entries) && h == HitOf(cands[i], entries);
      assert Lookup(entries, CacheKey(h.key)).Some?;
      assert h.data == map[] || USER_ID in h.data;
    case None =>
  }

  /** Writing back a payload that carries `user_id` keeps the cache well-formed. */
  lemma WritebackKeepsWellFormed(entries: Entries, st: SessionState)
    requires WellFormed(entries) && USER_ID in st.data
    ensures WellFormed(Writeback(entries, st))
  {
    var w := Writeback(entries, st);
    forall key | Lookup(w, CacheKey(key)).Some?
      ensures var d := Lookup(w, CacheKey(key)).value; d == map[] || USER_ID in d
    {
      if key != st.key {
        CacheKeyInjective(key, st.key);
        assert Lookup(w, CacheKey(key)) == Lookup(entries, CacheKey(key));
      }
    }
  }

  /** On a well-formed cache resolution never raises, and the writeback of
      whatever the handler did keeps the cache well-formed. */
  lemma RequestKeepsCacheWellFormed(cands: seq<Candidate>, entries: Entries, users: map<int, UserRow>,
                                    entropy: seq<byte>, handler: seq<Mutation>)
    requires |entropy| == 24 && WellFormed(entries)
    ensures Resolve(cands, entries, users, entropy).Some?
    ensures WellFormed(Writeback(entries, ApplyAll(Resolve(cands, entries, users, entropy).value, handler)))
  {
    ResolveOnWellFormed(cands, entries, users, entropy);
    var st := Resolve(cands, entries, users, entropy).value;
    ApplyAllKeepsUserId(st, handler);
    WritebackKeepsWellFormed(entries, ApplyAll(st, handler));
  }

  /** A login inside the request stores the long TTL, but the cookie was
      already set with the anonymous max_age. */
  lemma LoginCookieKeepsAnonymousAge(st: SessionState, u: User, entries: Entries)
    requires st.kind == Cookie && st.user == Anonymous() && IsAuthenticated(u)
    ensures CookieFor(st) == Some(SetCookie(COOKIE_SESSION_NAME, st.key, ANONYMOUS_EXPIRES))
    ensures var fin := ApplyAll(st, [SetUser(u)]);
      fin.key == st.key && Writeback(entries, fin)[CacheKey(fin.key)].ttl == Some(AUTHENTICATED_EXPIRES)
  {
    assert [SetUser(u)][..0] == [];
    assert ApplyAll(st, [SetUser(u)]) == st.WithUser(u);
  }

  /** `set_user` then `reset_user` in one request persists `user_id` None under the same key. */
  lemma SetThenResetPersistsNull(st: SessionState, u: User, entries: Entries)
    ensures var fin := ApplyAll(st, [SetUser(u), ResetUser]);
      fin.key == st.key && Lookup(Writeback(entries, fin), CacheKey(st.key)) == Some(ANONYMOUS_DATA)
      && Writeback(entries, fin)[CacheKey(st.key)].ttl == Some(ANONYMOUS_EXPIRES)
  {
    assert [SetUser(u), ResetUser][..1] == [SetUser(u)];
    assert [SetUser(u)][..0] == [];
    assert ApplyAll(st, [SetUser(u)]) == st.WithUser(u);
    assert ApplyAll(st, [SetUser(u), ResetUser]) == st.WithUser(u).WithoutUser();
  }

  /** `get_from_redis`: a session over the stored payload, or None on a miss. */
  method GetFromStore(kind: SessionType, key: string, store: Cache, entropy: seq<byte>) returns (r: Option<Session>)
    requires |entropy| == 24
    ensures Lookup(store.entries, CacheKey(key)).None? ==> r.None?
    ensures Lookup(store.entries, CacheKey(key)).Some? ==>
      r.Some? && fresh(r.value) && r.value.Valid()
      && r.value.State() == Initial(Some(kind), Some(key), Lookup(store.entries, CacheKey(key)), entropy)
  {
    var data := store.Get(CacheKey(key));
    if data.None? {
      return None;
    }
    var s := new Session(Some(kind), Some(key), data, entropy);
    r := Some(s);
  }

  /** `get_session_user`; `ok` is false when reading `user_id` raised. */
  method GetSessionUser(s: Session, users: UserTable) returns (ok: bool)
    requires s.Valid()
    modifies s
    ensures s.Valid()
    ensures Hydrate(old(s.State()), users.rows) == (if ok then Some(s.State()) else None)
    ensures !ok ==> s.State() == old(s.State())
  {
    var id := s.State().SessionUserId();
    if id == KeyError {
      return false;
    }
    if Truthy(id.v) {
      var u := UserById(users.rows, id.v);
      if u.Some? {
        s.SetUser(u.value);
      }
    }
    return true;
  }

  /** `get_session`: tries cookie, header, query in turn and stops at the
      first key found in the cache. */
  method GetSession(query: Option<string>, header: Option<string>, cookie: Option<string>,
                    store: Cache, users: UserTable, entropy: seq<byte>) returns (r: Option<Session>)
    requires |entropy| == 24
    ensures var spec := Resolve(Candidates(query, header, cookie), store.entries, users.rows, entropy);
      (r.None? <==> spec.None?) && (r.Some? ==> fresh(r.value) && r.value.Valid() && spec == Some(r.value.State()))
  {
    var values := Candidates(query, header, cookie);
    var i := 0;
    while i < |values|
      invariant 0 <= i <= |values|
      invariant FirstHit(values, store.entries) == FirstHit(values[i..], store.entries)
    {
      var c := values[i];
      if KeyGiven(c.key) {
        var s := GetFromStore(c.kind, c.key.value, store, entropy);
        if s.Some? {
          var ok := GetSessionUser(s.value, users);
          if ok {
            return s;
          }
          return None;
        }
      }
      assert values[i..][1..] == values[i + 1..];
      i := i + 1;
    }
    var s := new Session(Some(Cookie), None, None, entropy);
    return Some(s);
  }

  /** `save_to_redis`. */
  method SaveToStore(s: Session, store: Cache)
    modifies store
    ensures store.entries == Writeback(old(store.entries), s.State())
  {
    store.SetEx(CacheKey(s.key), s.State().MaxAge(), s.data);
  }

  /** `remove_from_redis`. */
  method RemoveFromStore(s: Session, store: Cache)
    modifies store
    ensures store.entries == old(store.entries) - {CacheKey(s.key)}
  {
    store.Delete(CacheKey(s.key));
  }

  /** `get`: resolve, set the cookie, let the handler mutate the session,
      then write it back. A handler that raises (`raised`) skips the
      writeback, since nothing guards the code after the yield. */
  method Serve(query: Option<string>, header: Option<string>, cookie: Option<string>,
               store: Cache, users: UserTable, entropy: seq<byte>,
               handler: seq<Mutation>, raised: bool)
    returns (final: Option<SessionState>, setCookie: Option<SetCookie>)
    requires |entropy| == 24
    modifies store
    ensures var spec := Resolve(Candidates(query, header, cookie), old(store.entries), users.rows, entropy);
      match spec
      case None => final.None? && setCookie.None? && store.entries == old(store.entries)
      case Some(st) =>
        final == Some(ApplyAll(st, handler)) && setCookie == CookieFor(st)
        && store.entries == (if raised then old(store.entries) else Writeback(old(store.entries), final.value))
  {
    var r := GetSession(query, header, cookie, store, users, entropy);
    if r.None? {
      return None, None;
    }
    var s := r.value;
    ghost var st := s.State();
    if s.kind == Cookie {
      setCookie := Some(SetCookie(COOKIE_SESSION_NAME, s.key, s.State().MaxAge()));
    } else {
      setCookie := None;
    }
    var i := 0;
    while i < |handler|
      invariant 0 <= i <= |handler|
      invariant s.Valid() && s.State() == ApplyAll(st, handler[..i])
      invariant store.entries == old(store.entries)
    {
      match handler[i] {
        case SetUser(u) => s.SetUser(u);
        case ResetUser => s.ResetUser();
        case SetKey(k) => s.SetKey(k);
      }
      assert handler[..i + 1][..i] == handler[..i];
      i := i + 1;
    }
    assert handler[..|handler|] == handler;
    if !raised {
      SaveToStore(s, store);
    }
    final := Some(s.State());
  }
}

/** The `/auth` routes: each takes the request's session (already resolved)
    and the user table, and answers with the session's user and key or with
    an error reply. */
module AuthRoutes {
  import opened Values
  import opened Users
  import opened Sessions
  import opened Store
  import opened Tables
  import opened Responses
  import opened SessionDeps

  /** `MeResponse`: the current user and the session key as the token. */
  datatype Me = Me(me: User, token: string)

  /** The password hash function applied with the configured salt; a
      parameter, so the hashing itself is not modelled. */
  type Hasher = (string, string) -> string

  /** `/me`: the session's user and key, whatever the session. */
  method GetMe(s: Session) returns (r: Reply<Me>)
    ensures r == Ok(Me(s.user, s.key))
  {
    r := Ok(Me(s.user, s.key));
  }

  /** `/sign-in`. An authenticated session gets 401; credentials that match
      no row get 404; otherwise the matched user is set on the session. The
      session is left alone on both error paths. Name and password lengths
      are enforced by the request model before the route runs. */
  method Login(s: Session, users: UserTable, name: string, password: string, salt: string, hash: Hasher)
    returns (r: Reply<Me>)
    requires |name| >= 4 && |password| >= 8
    requires s.Valid()
    modifies s
    ensures s.Valid()
    ensures IsAuthenticated(old(s.user)) ==> r == Error401() && s.State() == old(s.State())
    ensures !IsAuthenticated(old(s.user)) && !(exists id :: MatchesCreds(users.rows, id, name, hash(password, salt))) ==>
      r == Error404() && s.State() == old(s.State())
    ensures !IsAuthenticated(old(s.user)) && (exists id :: MatchesCreds(users.rows, id, name, hash(password, salt))) ==>
      r == Ok(Me(s.user, s.key)) && s.State() == old(s.State()).WithUser(s.user)
      && exists id :: MatchesCreds(users.rows, id, name, hash(password, salt)) && users.rows[id].user == s.user
  {
    if IsAuthenticated(s.user) {
      return Error401();
    }
    var hashed := hash(password, salt);
    var user := users.GetUserByCreds(name, hashed);
    if user.None? {
      return Error404();
    }
    s.SetUser(user.value);
    r := Ok(Me(s.user, s.key));
  }

  /** `/sign-up`. An authenticated session gets 401 and a taken name gets 400
      "This name already exist", both with no change; otherwise exactly one
      user row is added and its user is set on the session. */
  method Register(s: Session, users: UserTable, name: string, password: string, salt: string, hash: Hasher,
                  en: Option<bool>, joinDate: Option<int>)
    returns (r: Reply<Me>)
    requires |name| >= 4 && |password| >= 8
    requires s.Valid() && users.Valid()
    modifies s, users
    ensures s.Valid() && users.Valid()
    ensures IsAuthenticated(old(s.user)) ==>
      r == Error401() && s.State() == old(s.State()) && users.rows == old(users.rows)
    ensures !IsAuthenticated(old(s.user)) && NameTaken(old(users.rows), name) ==>
      r == Error400("This name already exist") && s.State() == old(s.State()) && users.rows == old(users.rows)
    ensures !IsAuthenticated(old(s.user)) && !NameTaken(old(users.rows), name) ==>
      r == Ok(Me(s.user, s.key)) && s.State() == old(s.State()).WithUser(s.user)
      && s.user == FromRow(old(users.nextId), en, name, joinDate) && IsAuthenticated(s.user)
      && s.user.id !in old(users.rows)
      && users.rows == old(users.rows)[s.user.id := UserRow(s.user, hash(password, salt))]
    ensures NamesUnique(old(users.rows)) ==> NamesUnique(users.rows)
  {
    if IsAuthenticated(s.user) {
      return Error401();
    }
    var existing := users.GetUserByName(name);
    if existing.Some? {
      return Error400("This name already exist");
    }
    var hashed := hash(password, salt);
    var created := users.CreateUser(name, hashed, en, joinDate);
    s.SetUser(created);
    r := Ok(Me(s.user, s.key));
  }

  /** `/logout`: the session goes back to anonymous under the same key. */
  method Logout(s: Session) returns (r: Reply<Me>)
    modifies s
    ensures s.Valid() && s.State() == old(s.State()).WithoutUser()
    ensures r == Ok(Me(Anonymous(), old(s.key))) && !IsAuthenticated(s.user)
  {
    s.ResetUser();
    r := Ok(Me(s.user, s.key));
  }

  /** After a sign-in or sign-up on a cookie session is written back, the
      next request carrying that cookie resumes exactly the signed-in state. */
  lemma SignedInSessionResumes(st: SessionState, u: User, users: map<int, UserRow>, entries: Entries, entropy: seq<byte>)
    requires |entropy| == 24 && st.key != "" && st.kind == Cookie
    requires IsAuthenticated(u) && u.id in users && users[u.id].user == u
    ensures Resolve(Candidates(None, None, Some(st.key)), Writeback(entries, st.WithUser(u)), users, entropy)
            == Some(st.WithUser(u))
  {
    var signed := st.WithUser(u);
    var w := Writeback(entries, signed);
    assert FirstHit(Candidates(None, None, Some(st.key)), w) == Some(Hit(st.key, Cookie, signed.data));
    var init := Initial(Some(Cookie), Some(st.key), Some(signed.data), entropy);
    assert init.SessionUserId() == Got(Int(u.id));
    assert init.WithUser(u).data == signed.data;
  }
}

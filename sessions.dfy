/** The Session entity: a user, a payload that carries `user_id`, an opaque
    key and the transport the key arrived on. `SessionState` is its value
    and the specification of each mutation; class `Session` is the object
    handlers share and mutate in place. */
module Sessions {
  import opened Values
  import opened Users

  /** The transport a key arrived on: the literals 'cookie', 'headers', 'token'. */
  datatype SessionType = Cookie | Headers | Token

  const COOKIE_SESSION_NAME: string := "sid"
  const HEADERS_SESSION_NAME: string := "X-SID"
  const TOKEN_SESSION_NAME: string := "sid"

  const ANONYMOUS_EXPIRES: nat := 3600
  const AUTHENTICATED_EXPIRES: nat := 2592000

  const USER_ID: string := "user_id"

  /** The payload of a session with no user: `{'user_id': None}`. */
  const ANONYMOUS_DATA: Data := map[USER_ID := Null]

  newtype byte = x: int | 0 <= x < 256

  predicate IsHexChar(c: char) { '0' <= c <= '9' || 'a' <= c <= 'f' }

  function HexDigit(n: int): (c: char)
    requires 0 <= n < 16
    ensures IsHexChar(c)
  {
    if n < 10 then ('0' as int + n) as char else ('a' as int + n - 10) as char
  }

  function HexValue(c: char): (n: int)
    requires IsHexChar(c)
    ensures 0 <= n < 16 && HexDigit(n) == c
  {
    if c <= '9' then c as int - '0' as int else c as int - 'a' as int + 10
  }

  /** `secrets.token_hex`: each byte as two lower-case hex digits, high nibble first. */
  function TokenHex(bytes: seq<byte>): (s: string)
    ensures |s| == 2 * |bytes|
    ensures forall i :: 0 <= i < |s| ==> IsHexChar(s[i])
  {
    if bytes == [] then ""
    else [HexDigit(bytes[0] as int / 16), HexDigit(bytes[0] as int % 16)] + TokenHex(bytes[1..])
  }

  /** `bytes.fromhex` on a lower-case hex string of even length. */
  function HexDecode(s: string): seq<byte>
    requires |s| % 2 == 0 && forall i :: 0 <= i < |s| ==> IsHexChar(s[i])
  {
    if s == [] then [] else [(HexValue(s[0]) * 16 + HexValue(s[1])) as byte] + HexDecode(s[2..])
  }

  /** The hex encoding loses nothing: decoding a token gives back its bytes. */
  lemma {:induction false} HexDecodeOfTokenHex(bytes: seq<byte>)
    ensures HexDecode(TokenHex(bytes)) == bytes
  {
    if bytes != [] {
      var s := TokenHex(bytes);
      assert s[2..] == TokenHex(bytes[1..]);
      HexDecodeOfTokenHex(bytes[1..]);
      var b := bytes[0] as int;
      assert HexValue(s[0]) == b / 16 && HexValue(s[1]) == b % 16;
    }
  }

  /** A key as `new_key` makes it: 48 lower-case hex characters. */
  predicate IsHexKey(k: string) {
    |k| == 48 && forall i :: 0 <= i < |k| ==> IsHexChar(k[i])
  }

  /** `new_key()`: `token_hex(24)` over the 24 random bytes it draws. */
  function NewKey(entropy: seq<byte>): (k: string)
    requires |entropy| == 24
    ensures IsHexKey(k) && HexDecode(k) == entropy
  {
    HexDecodeOfTokenHex(entropy);
    TokenHex(entropy)
  }

  /** `key or new_key()`: a key counts as given only when it is non-empty. */
  predicate KeyGiven(key: Option<string>) {
    key.Some? && key.value != ""
  }

  /** Reading `data['user_id']` can raise KeyError. */
  datatype Fetched = Got(v: Value) | KeyError

  datatype SessionState = SessionState(user: User, data: Data, key: string, kind: SessionType)
  {
    /** `max_age`: the TTL of the stored payload and the cookie's lifetime. */
    function MaxAge(): nat {
      if IsAuthenticated(user) then AUTHENTICATED_EXPIRES else ANONYMOUS_EXPIRES
    }

    /** `session_user_id`: None for an empty payload, otherwise `data['user_id']`. */
    function SessionUserId(): (r: Fetched)
      ensures data == map[] ==> r == Got(Null)
      ensures USER_ID in data ==> r == Got(data[USER_ID])
      ensures r == KeyError <==> data != map[] && USER_ID !in data
    {
      if data == map[] then Got(Null)
      else if USER_ID in data then Got(data[USER_ID])
      else KeyError
    }

    /** `set_user(u)`. */
    function WithUser(u: User): (r: SessionState)
      ensures r.user == u && r.key == key && r.kind == kind
      ensures r.data.Keys == data.Keys + {USER_ID}
      ensures forall k :: k in data && k != USER_ID ==> r.data[k] == data[k]
      ensures r.SessionUserId() == Got(Int(u.id))
    {
      this.(user := u, data := data[USER_ID := Int(u.id)])
    }

    /** `reset_user()`. */
    function WithoutUser(): (r: SessionState)
      ensures r.user == Anonymous() && r.key == key && r.kind == kind
      ensures r.data.Keys == {USER_ID} && r.SessionUserId() == Got(Null)
      ensures r.MaxAge() == ANONYMOUS_EXPIRES
    {
      this.(user := Anonymous(), data := ANONYMOUS_DATA)
    }

    /** The `key` setter. */
    function WithKey(k: string): (r: SessionState)
      ensures r.key == k && r.user == user && r.data == data && r.kind == kind
    {
      this.(key := k)
    }
  }

  /** `Session(session_type, key, data)`: an anonymous session whose payload
      is the given data when that is non-empty; the stored `user_id` is not
      looked up here. */
  function Initial(kind: Option<SessionType>, key: Option<string>, data: Option<Data>, entropy: seq<byte>): (st: SessionState)
    requires !KeyGiven(key) ==> |entropy| == 24
    ensures st.user == Anonymous() && st.MaxAge() == ANONYMOUS_EXPIRES
    ensures st.kind == (if kind.Some? then kind.value else Cookie)
    ensures KeyGiven(key) ==> st.key == key.value
    ensures !KeyGiven(key) ==> IsHexKey(st.key) && HexDecode(st.key) == entropy
    ensures data.Some? && data.value != map[] ==> st.data == data.value
    ensures data.None? || data.value == map[] ==> st.data == ANONYMOUS_DATA && st.SessionUserId() == Got(Null)
  {
    var payload := if data.Some? && data.value != map[] then data.value else ANONYMOUS_DATA;
    SessionState(Anonymous(), payload,
                 if KeyGiven(key) then key.value else NewKey(entropy),
                 if kind.Some? then kind.value else Cookie)
  }

  /** `set_user` twice is `set_user` once. */
  lemma WithUserIdempotent(st: SessionState, u: User)
    ensures st.WithUser(u).WithUser(u) == st.WithUser(u)
  {
  }

  /** max_age follows the user the last mutation attached. */
  lemma MaxAgeFollowsUser(st: SessionState, u: User)
    ensures st.WithUser(u).MaxAge() == (if u.id != 0 then AUTHENTICATED_EXPIRES else ANONYMOUS_EXPIRES)
    ensures st.WithoutUser().MaxAge() == ANONYMOUS_EXPIRES
  {
  }

  /** `set_user(u)` then `reset_user()` leaves `user_id` None and drops every other entry. */
  lemma SetThenResetClearsUserId(st: SessionState, u: User)
    ensures st.WithUser(u).WithoutUser().data == ANONYMOUS_DATA
    ensures st.WithUser(u).WithoutUser().key == st.key
  {
  }

  class Session {
    var user: User
    var data: Data
    var key: string
    const kind: SessionType

    function State(): SessionState
      reads this
    {
      SessionState(user, data, key, kind)
    }

    /** An authenticated user is always mirrored in `data['user_id']`. */
    ghost predicate Valid()
      reads this
    {
      IsAuthenticated(user) ==> USER_ID in data && data[USER_ID] == Int(user.id)
    }

    constructor (kind: Option<SessionType>, key: Option<string>, data: Option<Data>, entropy: seq<byte>)
      requires !KeyGiven(key) ==> |entropy| == 24
      ensures Valid() && State() == Initial(kind, key, data, entropy)
    {
      // reset_user() runs first; non-empty data then replaces the fresh payload
      this.user := Anonymous();
      this.data := ANONYMOUS_DATA;
      if data.Some? && data.value != map[] {
        this.data := data.value;
      }
      this.key := if KeyGiven(key) then key.value else NewKey(entropy);
      this.kind := if kind.Some? then kind.value else Cookie;
    }

    method SetUser(u: User)
      modifies this
      ensures Valid() && State() == old(State()).WithUser(u)
    {
      user := u;
      data := data[USER_ID := Int(u.id)];
    }

    method ResetUser()
      modifies this
      ensures Valid() && State() == old(State()).WithoutUser()
    {
      user := Anonymous();
      data := ANONYMOUS_DATA;
    }

    method SetKey(k: string)
      requires Valid()
      modifies this
      ensures Valid() && State() == old(State()).WithKey(k)
    {
      key := k;
    }
  }
}

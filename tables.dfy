/** The users and posts tables, modelled as maps keyed by a serial id
    together with the repository calls the handlers make. */
module Tables {
  import opened Values
  import opened Users

  datatype UserRow = UserRow(user: User, passHash: string)

  predicate NamesUnique(rows: map<int, UserRow>) {
    forall a, b :: a in rows && b in rows && rows[a].user.name == rows[b].user.name ==> a == b
  }

  predicate MatchesCreds(rows: map<int, UserRow>, id: int, name: string, passHash: string) {
    id in rows && rows[id].user.name == name && rows[id].passHash == passHash
  }

  predicate NameTaken(rows: map<int, UserRow>, name: string) {
    exists id :: id in rows && rows[id].user.name == name
  }

  /** `get_user(conn, pk)`: the row whose id is the given value. A payload id
      that is not an integer matches no row. */
  function UserById(rows: map<int, UserRow>, pk: Value): (r: Option<User>)
    ensures r.Some? <==> pk.Int? && pk.i in rows
    ensures r.Some? ==> r.value == rows[pk.i].user
  {
    if pk.Int? && pk.i in rows then Some(rows[pk.i].user) else None
  }

  class UserTable {
    var rows: map<int, UserRow>
    var nextId: int

    ghost predicate Valid()
      reads this
    {
      nextId >= 1 && forall id :: id in rows ==> 1 <= id < nextId && rows[id].user.id == id
    }

    constructor ()
      ensures Valid() && rows == map[]
    {
      rows := map[];
      nextId := 1;
    }

    /** `get_user_by_creds`: some row with this name and hash, if any. */
    method GetUserByCreds(name: string, passHash: string) returns (u: Option<User>)
      ensures u.None? <==> forall id :: id in rows ==> !MatchesCreds(rows, id, name, passHash)
      ensures u.Some? ==> exists id :: MatchesCreds(rows, id, name, passHash) && rows[id].user == u.value
    {
      if exists id :: id in rows && MatchesCreds(rows, id, name, passHash) {
        var id :| id in rows && MatchesCreds(rows, id, name, passHash);
        u := Some(rows[id].user);
      } else {
        u := None;
      }
    }

    /** `get_user_by_name`: some row with this name, if any. */
    method GetUserByName(name: string) returns (u: Option<User>)
      ensures u.None? <==> !NameTaken(rows, name)
      ensures u.Some? ==> u.value.name == name && exists id :: id in rows && rows[id].user == u.value
    {
      if exists id :: id in rows && rows[id].user.name == name {
        var id :| id in rows && rows[id].user.name == name;
        u := Some(rows[id].user);
      } else {
        u := None;
      }
    }

    /** `create_user`: inserts one row under the next serial id. The database
        fills in `en` and `join_date`; they arrive here as parameters. */
    method CreateUser(name: string, passHash: string, en: Option<bool>, joinDate: Option<int>) returns (u: User)
      requires Valid()
      modifies this
      ensures Valid()
      ensures u == FromRow(old(nextId), en, name, joinDate) && IsAuthenticated(u)
      ensures u.id !in old(rows) && rows == old(rows)[u.id := UserRow(u, passHash)]
    {
      u := FromRow(nextId, en, name, joinDate);
      rows := rows[nextId := UserRow(u, passHash)];
      nextId := nextId + 1;
    }
  }

  /** A post as the handlers return it; `likes` is filled from the cache. */
  datatype Post = Post(id: int, title: string, body: string, createdAt: int, authorId: int, likes: seq<Value>)

  class PostTable {
    var rows: map<int, Post>
    var nextId: int

    ghost predicate Valid()
      reads this
    {
      nextId >= 1 && forall id :: id in rows ==> 1 <= id < nextId && rows[id].id == id
    }

    constructor ()
      ensures Valid() && rows == map[]
    {
      rows := map[];
      nextId := 1;
    }

    /** `get_post`. */
    function Get(id: int): (r: Option<Post>)
      reads this
      ensures r.Some? <==> id in rows
      ensures r.Some? ==> r.value == rows[id]
    {
      if id in rows then Some(rows[id]) else None
    }

    /** `create_post`: inserts one row under the next serial id; the database
        supplies `created_at`. */
    method Create(authorId: int, title: string, body: string, createdAt: int) returns (p: Post)
      requires Valid()
      modifies this
      ensures Valid()
      ensures p == Post(old(nextId), title, body, createdAt, authorId, [])
      ensures p.id !in old(rows) && rows == old(rows)[p.id := p]
    {
      p := Post(nextId, title, body, createdAt, authorId, []);
      rows := rows[nextId := p];
      nextId := nextId + 1;
    }

    /** `update_post`: overwrites the columns that are not None. */
    method Update(id: int, title: Option<string>, body: Option<string>) returns (r: Option<Post>)
      requires Valid()
      modifies this
      ensures Valid()
      ensures id !in old(rows) ==> r.None? && rows == old(rows)
      ensures id in old(rows) ==> r.Some? && rows == old(rows)[id := r.value]
      ensures id in old(rows) ==>
        var p := old(rows)[id];
        r.value == p.(title := if title.Some? then title.value else p.title, body := if body.Some? then body.value else p.body)
    {
      if id in rows {
        var p := rows[id];
        if title.Some? { p := p.(title := title.value); }
        if body.Some? { p := p.(body := body.value); }
        rows := rows[id := p];
        r := Some(p);
      } else {
        r := None;
      }
    }

    /** `delete_post`: removes the row and returns it. */
    method Delete(id: int) returns (r: Option<Post>)
      requires Valid()
      modifies this
      ensures Valid()
      ensures r.Some? <==> id in old(rows)
      ensures r.Some? ==> r.value == old(rows)[id]
      ensures rows == old(rows) - {id}
    {
      r := Get(id);
      rows := rows - {id};
    }
  }
}

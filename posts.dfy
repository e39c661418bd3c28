/** The `/posts` routes. Every route first runs the router-wide
    authentication guard; the like list of a post lives in the cache under
    `post_<id>`, apart from the posts table. */
module PostsRoutes {
  import opened Values
  import opened Text
  import opened Users
  import opened Sessions
  import opened Store
  import opened Tables
  import opened Responses
  import opened SessionDeps
  import opened QueryBuilder

  const MAX_LIMIT := 20
  const POSTS_TABLE: string := "posts"
  const LIKES: string := "likes"

  /** `check_auth`: the router-wide guard; an anonymous session is answered
      with 401 before any route body runs. */
  function CheckAuth(st: SessionState): (r: Reply<()>)
    ensures r.Ok? <==> IsAuthenticated(st.user)
    ensures r.Failure? ==> r == Error401()
  {
    if IsAuthenticated(st.user) then Ok(()) else Error401()
  }

  /** The cache key of a post's like list. */
  function PostKey(id: int): (k: string)
    ensures |k| > 5 && k[..5] == "post_" && k[5..] == IntToString(id)
  {
    "post_" + IntToString(id)
  }

  /** Like lists and sessions never share a cache key. */
  lemma PostKeyIsNotSessionKey(id: int, key: string)
    ensures PostKey(id) != CacheKey(key)
  {
    assert PostKey(id)[0] == 'p';
    assert CacheKey(key)[..|SESSION_PREFIX|] == SESSION_PREFIX;
    assert CacheKey(key)[0] == SESSION_PREFIX[0] == 's';
  }

  /** Distinct posts keep distinct like lists. */
  lemma PostKeyInjective(a: int, b: int)
    requires a != b
    ensures PostKey(a) != PostKey(b)
  {
    if PostKey(a) == PostKey(b) {
      assert IntToString(a) == PostKey(a)[5..];
      assert IntToString(b) == PostKey(b)[5..];
      IntToStringInjective(a, b);
    }
  }

  datatype Paging = Paging(page: int, limit: int)

  /** The clamping at the top of `get_posts`. */
  function ClampPaging(page: int, limit: int): (p: Paging)
    ensures 1 <= p.limit <= MAX_LIMIT && p.page >= 1
    ensures 1 <= limit <= MAX_LIMIT ==> p.limit == limit
    ensures limit > MAX_LIMIT ==> p.limit == MAX_LIMIT
    ensures limit < 1 ==> p.limit == 1
    ensures page >= 1 ==> p.page == page
    ensures page < 1 ==> p.page == 1
  {
    var l := if limit < MAX_LIMIT then limit else MAX_LIMIT;
    Paging(if page > 1 then page else 1, if l > 1 then l else 1)
  }

  /** Clamping a clamped pair changes nothing. */
  lemma ClampPagingIdempotent(page: int, limit: int)
    ensures var p := ClampPaging(page, limit); ClampPaging(p.page, p.limit) == p
  {
  }

  /** The listing query of `get_posts_list` for one page: every column of
      `posts`, no condition, no order, the page size as LIMIT and the rows of
      the earlier pages as OFFSET. */
  function ListQuery(p: Paging): (q: string)
    ensures q == Join(["SELECT * FROM posts", "", "", LimitClause(Some(p.limit)),
                       OffsetClause(Some(p.limit * (p.page - 1)))], " ")
  {
    assert "SELECT " + FieldList([]) + " FROM " + POSTS_TABLE == "SELECT * FROM posts";
    GetListQuery(POSTS_TABLE, "", Some(p.limit), Some(p.limit * (p.page - 1)), [], [])
  }

  /** The page's offset is the number of rows on the pages before it; the
      first page carries no OFFSET clause and every clamped page a LIMIT. */
  lemma ListQueryPaging(page: int, limit: int)
    ensures var p := ClampPaging(page, limit);
      p.limit * (p.page - 1) >= 0
      && LimitClause(Some(p.limit)) == "LIMIT " + IntToString(p.limit)
      && (OffsetClause(Some(p.limit * (p.page - 1))) == "" <==> p.page == 1)
  {
    var p := ClampPaging(page, limit);
    PageOffset(p.limit, p.page);
  }

  /** The rows before page `page` number zero exactly on the first page. */
  lemma PageOffset(limit: int, page: int)
    requires limit >= 1 && page >= 1
    ensures limit * (page - 1) >= 0
    ensures limit * (page - 1) == 0 <==> page == 1
  {
    var before := page - 1;
    if before > 0 {
      assert limit * before == before + (limit - 1) * before;
      assert (limit - 1) * before >= 0;
    }
  }

  /** The listing reply: the clamped paging and the statement that fetches
      the page. Items and total are not modelled. */
  datatype Listing = Listing(page: int, limit: int, query: string)

  /** `get_posts`. */
  function GetPosts(st: SessionState, page: int, limit: int): (r: Reply<Listing>)
    ensures r.Failure? <==> !IsAuthenticated(st.user)
    ensures r.Failure? ==> r == Error401()
    ensures r.Ok? ==> Paging(r.value.page, r.value.limit) == ClampPaging(page, limit)
                      && r.value.query == ListQuery(ClampPaging(page, limit))
  {
    if CheckAuth(st).Failure? then Error401()
    else
      var p := ClampPaging(page, limit);
      Ok(Listing(p.page, p.limit, ListQuery(p)))
  }

  /** The cached like list of a post: the cache payload must exist and
      `likes`, when present, must be a list (the `in` test raises on
      anything else); a missing `likes` reads as the empty list. */
  function LikesOf(cached: Option<Data>): (r: Option<seq<Value>>)
    ensures cached.None? ==> r.None?
    ensures cached.Some? && LIKES !in cached.value ==> r == Some([])
    ensures cached.Some? && LIKES in cached.value ==>
      (r.Some? <==> cached.value[LIKES].List?) && (r.Some? ==> r.value == cached.value[LIKES].items)
  {
    if cached.None? then None
    else if LIKES !in cached.value then Some([])
    else if cached.value[LIKES].List? then Some(cached.value[LIKES].items)
    else None
  }

  /** Python's `==` between a like-list element and the user's id: the id
      itself, or the bool equal to it (`True == 1`, `False == 0`). */
  predicate IsId(x: Value, uid: int) {
    x == Int(uid) || (x.Bool? && uid == (if x.b then 1 else 0))
  }

  /** `uid in likes`. */
  predicate HasId(l: seq<Value>, uid: int) {
    exists i :: 0 <= i < |l| && IsId(l[i], uid)
  }

  lemma HasIdTail(l: seq<Value>, uid: int)
    requires l != []
    ensures HasId(l, uid) <==> IsId(l[0], uid) || HasId(l[1..], uid)
  {
    if HasId(l[1..], uid) {
      var i :| 0 <= i < |l| - 1 && IsId(l[1..][i], uid);
      assert l[i + 1] == l[1..][i];
    }
    if HasId(l, uid) && !IsId(l[0], uid) {
      var i :| 0 <= i < |l| && IsId(l[i], uid);
      assert l[1..][i - 1] == l[i];
    }
  }

  /** Position `i` holds the first element of the list equal to the id. */
  predicate FirstIdAt(l: seq<Value>, uid: int, i: int) {
    0 <= i < |l| && IsId(l[i], uid) && forall j :: 0 <= j < i ==> !IsId(l[j], uid)
  }

  /** `likes.remove(uid)`: drops the first element equal to the id, and
      drops nothing when there is none. */
  function RemoveFirst(l: seq<Value>, uid: int): (r: seq<Value>)
    ensures |r| == (if HasId(l, uid) then |l| - 1 else |l|)
    ensures !HasId(l, uid) ==> r == l
    ensures HasId(l, uid) ==> exists i :: FirstIdAt(l, uid, i) && r == l[..i] + l[i + 1..]
    decreases |l|
  {
    if l == [] then []
    else if IsId(l[0], uid) then
      assert FirstIdAt(l, uid, 0) && l[..0] + l[1..] == l[1..];
      l[1..]
    else
      HasIdTail(l, uid);
      var rest := RemoveFirst(l[1..], uid);
      RemoveFirstStep(l, uid, rest);
      [l[0]] + rest
  }

  /** The step of `RemoveFirst` past a leading element that is not the id:
      the first match moves one place right. */
  lemma RemoveFirstStep(l: seq<Value>, uid: int, rest: seq<Value>)
    requires l != [] && !IsId(l[0], uid)
    requires HasId(l[1..], uid) ==> exists i :: FirstIdAt(l[1..], uid, i) && rest == l[1..][..i] + l[1..][i + 1..]
    ensures HasId(l[1..], uid) ==> exists i :: FirstIdAt(l, uid, i) && [l[0]] + rest == l[..i] + l[i + 1..]
  {
    if HasId(l[1..], uid) {
      var i :| FirstIdAt(l[1..], uid, i) && rest == l[1..][..i] + l[1..][i + 1..];
      FirstIdShift(l, uid, i);
      assert l[..i + 1] == [l[0]] + l[1..][..i];
      assert l[i + 2..] == l[1..][i + 1..];
      assert [l[0]] + rest == l[..i + 1] + l[i + 2..];
    }
  }

  lemma FirstIdShift(l: seq<Value>, uid: int, i: int)
    requires l != [] && !IsId(l[0], uid) && FirstIdAt(l[1..], uid, i)
    ensures FirstIdAt(l, uid, i + 1)
  {
    forall j | 0 <= j < i + 1 ensures !IsId(l[j], uid) {
      if j > 0 { assert l[j] == l[1..][j - 1]; }
    }
    assert l[i + 1] == l[1..][i];
  }

  /** `[1, "x", 1].remove(1)` drops the earlier 1 and keeps the later one. */
  lemma RemoveDropsEarliest()
    ensures RemoveFirst([Int(1), Str("x"), Int(1)], 1) == [Str("x"), Int(1)]
  {
  }

  /** The like toggle: remove the user's id if the list has it, else append
      it; the list shrinks or grows by one. */
  function ToggleLike(likes: seq<Value>, uid: int): (r: seq<Value>)
    ensures |r| == (if HasId(likes, uid) then |likes| - 1 else |likes| + 1)
    ensures HasId(likes, uid) ==> r == RemoveFirst(likes, uid)
    ensures !HasId(likes, uid) ==> r == likes + [Int(uid)]
  {
    if HasId(likes, uid) then RemoveFirst(likes, uid) else likes + [Int(uid)]
  }

  /** At most one element of the list equals the id. */
  predicate AtMostOneId(l: seq<Value>, uid: int) {
    forall i, j :: 0 <= i < j < |l| && IsId(l[i], uid) ==> !IsId(l[j], uid)
  }

  /** The list with every element equal to the id removed. */
  function Without(l: seq<Value>, uid: int): seq<Value>
    decreases |l|
  {
    if l == [] then [] else (if IsId(l[0], uid) then [] else [l[0]]) + Without(l[1..], uid)
  }

  lemma {:induction false} RemoveFirstMembers(l: seq<Value>, uid: int)
    requires AtMostOneId(l, uid)
    ensures forall i :: 0 <= i < |RemoveFirst(l, uid)| ==> !IsId(RemoveFirst(l, uid)[i], uid)
    ensures forall x :: !IsId(x, uid) ==> (x in RemoveFirst(l, uid) <==> x in l)
    decreases |l|
  {
    if l != [] {
      var tail := l[1..];
      assert AtMostOneId(tail, uid) by {
        forall i, j | 0 <= i < j < |tail| && IsId(tail[i], uid) ensures !IsId(tail[j], uid) {
          assert tail[i] == l[i + 1] && tail[j] == l[j + 1];
        }
      }
      assert l == [l[0]] + tail;
      if IsId(l[0], uid) {
        forall i | 0 <= i < |tail| ensures !IsId(tail[i], uid) {
          assert tail[i] == l[i + 1];
        }
      } else {
        RemoveFirstMembers(tail, uid);
        var r := RemoveFirst(l, uid);
        assert r == [l[0]] + RemoveFirst(tail, uid);
        forall i | 0 <= i < |r| ensures !IsId(r[i], uid) {
          if i > 0 {
            assert r[i] == RemoveFirst(tail, uid)[i - 1];
          }
        }
      }
    }
  }

  /** Toggling flips whether the list has the user's id, keeps every other
      member, and keeps at most one element equal to the id. */
  lemma ToggleFlipsMembership(l: seq<Value>, uid: int)
    requires AtMostOneId(l, uid)
    ensures HasId(ToggleLike(l, uid), uid) <==> !HasId(l, uid)
    ensures forall x :: !IsId(x, uid) ==> (x in ToggleLike(l, uid) <==> x in l)
    ensures AtMostOneId(ToggleLike(l, uid), uid)
  {
    if HasId(l, uid) {
      RemoveFirstMembers(l, uid);
    } else {
      var r := l + [Int(uid)];
      assert IsId(r[|l|], uid);
      forall i | 0 <= i < |l| ensures !IsId(r[i], uid) {
        assert r[i] == l[i];
      }
    }
  }

  lemma {:induction false} RemoveFirstOfAppended(l: seq<Value>, uid: int)
    requires !HasId(l, uid)
    ensures RemoveFirst(l + [Int(uid)], uid) == l
    decreases |l|
  {
    if l != [] {
      HasIdTail(l, uid);
      assert (l + [Int(uid)])[1..] == l[1..] + [Int(uid)];
      RemoveFirstOfAppended(l[1..], uid);
      assert l == [l[0]] + l[1..];
    }
  }

  /** Liking twice restores whether the list has the user's id and every
      other member; from a list without the id it restores the list exactly. */
  lemma ToggleTwiceRestores(l: seq<Value>, uid: int)
    requires AtMostOneId(l, uid)
    ensures HasId(ToggleLike(ToggleLike(l, uid), uid), uid) <==> HasId(l, uid)
    ensures forall x :: !IsId(x, uid) ==> (x in ToggleLike(ToggleLike(l, uid), uid) <==> x in l)
    ensures !HasId(l, uid) ==> ToggleLike(ToggleLike(l, uid), uid) == l
  {
    ToggleFlipsMembership(l, uid);
    ToggleFlipsMembership(ToggleLike(l, uid), uid);
    if !HasId(l, uid) {
      RemoveFirstOfAppended(l, uid);
    }
  }

  lemma {:induction false} WithoutOfConcat(a: seq<Value>, b: seq<Value>, uid: int)
    ensures Without(a + b, uid) == Without(a, uid) + Without(b, uid)
    decreases |a|
  {
    if a == [] {
      assert a + b == b;
    } else {
      assert (a + b)[1..] == a[1..] + b;
      WithoutOfConcat(a[1..], b, uid);
    }
  }

  lemma {:induction false} WithoutOfRemoveFirst(l: seq<Value>, uid: int)
    ensures Without(RemoveFirst(l, uid), uid) == Without(l, uid)
    decreases |l|
  {
    if l != [] && !IsId(l[0], uid) {
      WithoutOfRemoveFirst(l[1..], uid);
      WithoutOfConcat([l[0]], RemoveFirst(l[1..], uid), uid);
    }
  }

  /** Toggling one user's like leaves every other like where it was. */
  lemma ToggleKeepsOthers(l: seq<Value>, uid: int)
    ensures Without(ToggleLike(l, uid), uid) == Without(l, uid)
  {
    if HasId(l, uid) {
      WithoutOfRemoveFirst(l, uid);
    } else {
      WithoutOfConcat(l, [Int(uid)], uid);
    }
  }

  /** `create_post`: the post is stored under the author's id and its like
      list is started empty in the cache. */
  method CreatePost(s: Session, posts: PostTable, cache: Cache, title: string, body: string, createdAt: int)
    returns (r: Reply<Post>)
    requires s.Valid() && posts.Valid()
    modifies posts, cache
    ensures posts.Valid()
    ensures !IsAuthenticated(s.user) ==>
      r == Error401() && posts.rows == old(posts.rows) && cache.entries == old(cache.entries)
    ensures IsAuthenticated(s.user) ==>
      r == Ok(Post(old(posts.nextId), title, body, createdAt, s.user.id, []))
      && r.value.id !in old(posts.rows) && posts.rows == old(posts.rows)[r.value.id := r.value]
      && cache.entries == old(cache.entries)[PostKey(r.value.id) := Entry(Decoded(map[LIKES := List([])]), None)]
  {
    if CheckAuth(s.State()).Failure? {
      return Error401();
    }
    var uid := s.State().SessionUserId();
    var p := posts.Create(uid.v.i, title, body, createdAt);
    cache.Set(PostKey(p.id), map[LIKES := List([])]);
    r := Ok(p);
  }

  /** `update_post`: 401, then 404 for a missing post, then 403 for another
      author's post; with neither field given the post is returned as it is,
      otherwise the given fields are overwritten. */
  method UpdatePost(s: Session, posts: PostTable, postId: int, title: Option<string>, body: Option<string>)
    returns (r: Reply<Post>)
    requires s.Valid() && posts.Valid()
    modifies posts
    ensures posts.Valid()
    ensures !IsAuthenticated(s.user) ==> r == Error401() && posts.rows == old(posts.rows)
    ensures IsAuthenticated(s.user) && postId !in old(posts.rows) ==> r == Error404() && posts.rows == old(posts.rows)
    ensures IsAuthenticated(s.user) && postId in old(posts.rows) && old(posts.rows)[postId].authorId != s.user.id ==>
      r == Error403() && posts.rows == old(posts.rows)
    ensures IsAuthenticated(s.user) && postId in old(posts.rows) && old(posts.rows)[postId].authorId == s.user.id ==>
      var p := old(posts.rows)[postId];
      var q := p.(title := if title.Some? then title.value else p.title, body := if body.Some? then body.value else p.body);
      r == Ok(q) && posts.rows == old(posts.rows)[postId := q]
  {
    if CheckAuth(s.State()).Failure? {
      return Error401();
    }
    var post := posts.Get(postId);
    if post.None? {
      return Error404();
    }
    var uid := s.State().SessionUserId();
    if Int(post.value.authorId) != uid.v {
      return Error403();
    }
    if body.None? && title.None? {
      var p := post.value;
      assert p.(title := p.title, body := p.body) == p;
      assert posts.rows == posts.rows[postId := p];
      return Ok(post.value);
    }
    var updated := posts.Update(postId, title, body);
    r := Ok(updated.value);
  }

  /** `delete_post`: 401, 404 and 403 as for an update; otherwise the row is
      removed. */
  method DeletePost(s: Session, posts: PostTable, postId: int) returns (r: Reply<()>)
    requires s.Valid() && posts.Valid()
    modifies posts
    ensures posts.Valid()
    ensures !IsAuthenticated(s.user) ==> r == Error401() && posts.rows == old(posts.rows)
    ensures IsAuthenticated(s.user) && postId !in old(posts.rows) ==> r == Error404() && posts.rows == old(posts.rows)
    ensures IsAuthenticated(s.user) && postId in old(posts.rows) && old(posts.rows)[postId].authorId != s.user.id ==>
      r == Error403() && posts.rows == old(posts.rows)
    ensures IsAuthenticated(s.user) && postId in old(posts.rows) && old(posts.rows)[postId].authorId == s.user.id ==>
      r == Ok(()) && posts.rows == old(posts.rows) - {postId}
  {
    if CheckAuth(s.State()).Failure? {
      return Error401();
    }
    var post := posts.Get(postId);
    if post.None? {
      return Error404();
    }
    var uid := s.State().SessionUserId();
    if Int(post.value.authorId) != uid.v {
      return Error403();
    }
    var deleted := posts.Delete(postId);
    r := Ok(());
  }

  /** `like_post`: 401, then 404 for a missing post; a missing cache entry or
      a `likes` value that is not a list fails with 500; otherwise the
      user's like is toggled, the cache entry is replaced by one holding only
      the new list, and the post is returned with that list. */
  method LikePost(s: Session, posts: PostTable, cache: Cache, postId: int) returns (r: Reply<Post>)
    requires s.Valid()
    modifies cache
    ensures !IsAuthenticated(s.user) ==> r == Error401() && cache.entries == old(cache.entries)
    ensures IsAuthenticated(s.user) && postId !in posts.rows ==> r == Error404() && cache.entries == old(cache.entries)
    ensures IsAuthenticated(s.user) && postId in posts.rows ==>
      match LikesOf(Lookup(old(cache.entries), PostKey(postId)))
      case None => r == Error500() && cache.entries == old(cache.entries)
      case Some(likes) =>
        var toggled := ToggleLike(likes, s.user.id);
        r == Ok(posts.rows[postId].(likes := toggled))
        && cache.entries == old(cache.entries)[PostKey(postId) := Entry(Decoded(map[LIKES := List(toggled)]), None)]
  {
    if CheckAuth(s.State()).Failure? {
      return Error401();
    }
    var post := posts.Get(postId);
    if post.None? {
      return Error404();
    }
    var cached := cache.Get(PostKey(postId));
    var likes := LikesOf(cached);
    if likes.None? {
      return Error500();
    }
    var uid := s.State().SessionUserId();
    var toggled := ToggleLike(likes.value, uid.v.i);
    cache.Set(PostKey(postId), map[LIKES := List(toggled)]);
    r := Ok(post.value.(likes := toggled));
  }

  /** A fresh post's first like adds exactly the user's id and a second like
      removes it again. */
  lemma LikeThenUnlike(uid: int)
    ensures ToggleLike([], uid) == [Int(uid)]
    ensures ToggleLike(ToggleLike([], uid), uid) == []
  {
    ToggleTwiceRestores([], uid);
  }

  /** A cached `true` counts as the like of user 1, as Python's `True == 1`
      has it: liking removes it. */
  lemma CachedTrueIsUserOne()
    ensures ToggleLike([Bool(true)], 1) == []
  {
    assert IsId([Bool(true)][0], 1);
  }
}

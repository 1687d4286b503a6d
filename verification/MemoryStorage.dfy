/** The in-memory backend: maps scanned in any order, slices sorted in place, pages cut by a loop. */
module MemoryStorage {
  import opened Wrappers
  import opened Uuids
  import opened Domain
  import opened Keyset
  import opened CommentSets
  import opened FieldOrder

  class Store {
    var posts: map<PostID, Post>
    var comments: map<CommentID, Comment>

    ghost predicate Valid()
      reads this
    {
      Keyed(comments) && forall id :: id in posts ==> posts[id].id == id
    }

    constructor ()
      ensures Valid() && posts == map[] && comments == map[]
    {
      posts, comments := map[], map[];
    }
  }

  // Insertion, the stand-in for sort.Slice: callers know only what SortRows promises.
  function Insert<T>(x: T, s: seq<T>, key: T -> Cursor): seq<T>
  {
    if s == [] || Newer(key(x), key(s[0])) then [x] + s else [s[0]] + Insert(x, s[1..], key)
  }

  lemma {:induction false} InsertKeeps<T>(x: T, s: seq<T>, key: T -> Cursor)
    requires Descending(s, key) && forall y :: y in s ==> key(y) != key(x)
    ensures Descending(Insert(x, s, key), key)
    ensures forall y :: y in Insert(x, s, key) ==> y == x || y in s
    ensures forall y :: y in s || y == x ==> y in Insert(x, s, key)
    ensures |Insert(x, s, key)| == |s| + 1
  {
    if s == [] {
    } else if Newer(key(x), key(s[0])) {
      forall j | 0 <= j < |s| ensures Newer(key(x), key(s[j])) {
        if j > 0 { NewerIsTransitive(key(x), key(s[0]), key(s[j])); }
      }
    } else {
      InsertKeeps(x, s[1..], key);
      NewerIsTotal(key(x), key(s[0]));
      var rest := Insert(x, s[1..], key);
      assert s == [s[0]] + s[1..];
      forall j | 0 <= j < |rest| ensures Newer(key(s[0]), key(rest[j])) {
        assert rest[j] in rest;
        if rest[j] != x {
          var k :| 0 <= k < |s[1..]| && s[1..][k] == rest[j];
          assert Newer(key(s[0]), key(s[k + 1]));
        }
      }
    }
  }

  predicate KeysDistinct<T>(s: seq<T>, key: T -> Cursor)
  {
    forall i, j :: 0 <= i < j < |s| ==> key(s[i]) != key(s[j])
  }

  // sort.Slice with the newest-first comparison: some order of the same rows, newest first.
  method SortRows<T>(rows: array<T>, key: T -> Cursor)
    requires KeysDistinct(rows[..], key)
    modifies rows
    ensures Descending(rows[..], key) && Elems(rows[..]) == Elems(old(rows[..]))
  {
    ghost var was := rows[..];
    var sorted: seq<T> := [];
    for i := 0 to rows.Length
      invariant rows[..] == was
      invariant Descending(sorted, key) && |sorted| == i
      invariant forall y :: y in sorted <==> y in was[..i]
    {
      InsertKeeps(rows[i], sorted, key);
      sorted := Insert(rows[i], sorted, key);
    }
    assert was[..rows.Length] == was;
    forall i | 0 <= i < rows.Length { rows[i] := sorted[i]; }
    assert rows[..] == sorted;
  }

  /** paginateComments and the loop of PostRepository.List: sort in place, skip up to the cursor,
      stop at first + 1 items, trim. */
  method Paginate<T>(rows: array<T>, key: T -> Cursor, page: PageInput) returns (r: Page<T>)
    requires page.first >= 0 && KeysDistinct(rows[..], key)
    modifies rows
    ensures Apart(Elems(old(rows[..])), key)
    ensures r == PageOf(Elems(old(rows[..])), key, page)
  {
    ghost var all := Elems(rows[..]);
    SortRows(rows, key);
    ghost var keep := (x: T) => After(key(x), page.after);
    KeptIsListing(rows[..], all, key, page.after, keep);
    r := ReadPage(rows, key, page, keep);
  }

  method ReadPage<T>(rows: array<T>, key: T -> Cursor, page: PageInput, ghost keep: T -> bool) returns (r: Page<T>)
    requires page.first >= 0
    requires forall x :: keep(x) <==> After(key(x), page.after)
    ensures r == Cut(Filter(rows[..], keep), page.first)
  {
    var items: seq<T> := [];
    ghost var n := 0;
    for i := 0 to rows.Length
      invariant n == i && items == Filter(rows[..i], keep) && |items| <= page.first
    {
      var row := rows[i];
      FilterStep(rows[..], keep, i);
      assert rows[..][..i] == rows[..i] && rows[..][..i + 1] == rows[..i + 1];
      n := i + 1;
      if !CursorMatchesAfter(key(row).createdAt, key(row).id, page.after) {
        continue;
      }
      items := items + [row];
      if |items| == page.LimitPlusOne() {
        break;
      }
    }
    assert rows[..][..n] == rows[..n] && rows[..rows.Length] == rows[..];
    FilterPrefix(rows[..], keep, n);
    assert items == items[..|items|];
    var hasNextPage := |items| > page.first;
    if hasNextPage {
      items := items[..page.first];
    }
    r := Page(items, hasNextPage);
  }

  lemma DescendingApart<T>(s: seq<T>, key: T -> Cursor)
    requires Descending(s, key)
    ensures Apart(Elems(s), key)
  {
    forall x, y | x in Elems(s) && y in Elems(s) && key(x) == key(y) ensures x == y {
      var i :| 0 <= i < |s| && s[i] == x;
      var j :| 0 <= j < |s| && s[j] == y;
      NewerIsTotal(key(x), key(y));
    }
  }

  lemma KeptIsListing<T>(sorted: seq<T>, all: set<T>, key: T -> Cursor, after: Option<Cursor>, keep: T -> bool)
    requires Descending(sorted, key) && Elems(sorted) == all
    requires forall x :: keep(x) <==> After(key(x), after)
    ensures Apart(all, key)
    ensures Filter(sorted, keep) == Listing(Matching(all, key, after), key)
  {
    DescendingApart(sorted, key);
    FilterDescending(sorted, keep, key);
    FilterElems(sorted, keep);
    var f, m := Filter(sorted, keep), Matching(all, key, after);
    forall x ensures x in f <==> x in m {
      assert x in sorted <==> x in all;
    }
    assert Elems(f) == m;
    ListingIsUnique(f, m, key);
  }

  class CommentRepository {
    const store: Store

    constructor (store: Store)
      ensures this.store == store
    {
      this.store := store;
    }

    method Create(comment: Comment)
      requires store.Valid()
      modifies store
      ensures store.Valid() && store.posts == old(store.posts)
      ensures store.comments == old(store.comments)[comment.id := comment]
    {
      store.comments := store.comments[comment.id := comment];
    }

    method GetByID(id: CommentID) returns (r: Result<Comment, Error>)
      requires store.Valid()
      ensures r == if id in store.comments then Ok(store.comments[id]) else Err(NotFound("comment", Text(id)))
      ensures r.Ok? ==> r.value.id == id
    {
      if id !in store.comments {
        return Err(NotFound("comment", Text(id)));
      }
      return Ok(store.comments[id]);
    }

    // commentsByPredicate and filterComments: the map is read in any order.
    method CommentsByPredicate(pick: Comment -> bool) returns (result: seq<Comment>)
      requires store.Valid()
      ensures forall c :: c in result <==> c in store.comments.Values && pick(c)
      ensures forall i, j :: 0 <= i < j < |result| ==> result[i].id != result[j].id
    {
      result := [];
      var remaining := store.comments.Keys;
      while remaining != {}
        invariant remaining <= store.comments.Keys
        invariant forall i :: 0 <= i < |result| ==>
          && result[i].id in store.comments.Keys - remaining
          && store.comments[result[i].id] == result[i] && pick(result[i])
        invariant forall id :: id in store.comments.Keys - remaining && pick(store.comments[id]) ==>
          store.comments[id] in result
        invariant forall i, j :: 0 <= i < j < |result| ==> result[i].id != result[j].id
      {
        var id :| id in remaining;
        remaining := remaining - {id};
        var comment := store.comments[id];
        if pick(comment) {
          result := result + [comment];
        }
      }
    }

    // ListTopLevel (part is PostOf) and ListReplies (part is ParentOf).
    method List(part: Comment -> Option<Uuid>, id: Uuid, page: PageInput) returns (r: Page<Comment>)
      requires store.Valid() && page.first >= 0
      ensures r == MemberPage(store.comments, part, id, page)
      ensures RightComments(Members(store.comments, part, id), page, r)
    {
      var found := CommentsByPredicate(c => part(c) == Some(id));
      r := PaginateSlice(found, page);
      assert Elems(found) == Members(store.comments, part, id);
      CommentPage(Members(store.comments, part, id), page);
    }

    method PaginateSlice(found: seq<Comment>, page: PageInput) returns (r: Page<Comment>)
      requires page.first >= 0 && forall i, j :: 0 <= i < j < |found| ==> found[i].id != found[j].id
      ensures Apart(Elems(found), CommentCursor) && r == PageOf(Elems(found), CommentCursor, page)
    {
      var rows := new Comment[|found|](i requires 0 <= i < |found| => found[i]);
      assert rows[..] == found;
      forall i, j | 0 <= i < j < |found| ensures CommentCursor(found[i]) != CommentCursor(found[j]) {
        if CommentCursor(found[i]) == CommentCursor(found[j]) { TextInjective(found[i].id, found[j].id); }
      }
      r := Paginate(rows, CommentCursor, page);
    }

    // CountTopLevel and CountReplies.
    method Count(part: Comment -> Option<Uuid>, id: Uuid) returns (n: nat)
      requires store.Valid()
      ensures n == |Members(store.comments, part, id)|
    {
      var found := CommentsByPredicate(c => part(c) == Some(id));
      DistinctCount(found);
      assert Elems(found) == Members(store.comments, part, id);
      n := |found|;
    }

    // BatchListTopLevel and BatchListReplies: one scan, grouped, each group paged.
    method BatchList(part: Comment -> Option<Uuid>, ids: seq<Uuid>, page: PageInput)
      returns (result: map<Uuid, Page<Comment>>)
      requires store.Valid() && page.first >= 0
      ensures result == map id | id in ids :: MemberPage(store.comments, part, id, page)
    {
      var idSet := set id | id in ids;
      var grouped := map id | id in idSet :: [];
      var found := CommentsByPredicate(c => part(c).Some? && part(c).value in idSet);
      for i := 0 to |found|
        invariant grouped.Keys == idSet
        invariant forall id :: id in idSet ==> grouped[id] == Group(found[..i], part, id)
      {
        assert found[i] in found;
        var id := part(found[i]).value;
        forall k | k in idSet
          ensures Group(found[..i + 1], part, k) == Group(found[..i], part, k) + if k == id then [found[i]] else []
        {
          GroupStep(found, part, k, i);
        }
        grouped := grouped[id := grouped[id] + [found[i]]];
      }
      assert found[..|found|] == found;
      forall id | id in idSet
        ensures Elems(grouped[id]) == Members(store.comments, part, id)
        ensures forall i, j :: 0 <= i < j < |grouped[id]| ==> grouped[id][i].id != grouped[id][j].id
      {
        GroupIsMembers(store.comments, part, idSet, id, found);
      }
      result := PaginateGroups(part, grouped, page);
    }

    method PaginateGroups(ghost part: Comment -> Option<Uuid>, grouped: map<Uuid, seq<Comment>>, page: PageInput)
      returns (result: map<Uuid, Page<Comment>>)
      requires store.Valid() && page.first >= 0
      requires forall id :: id in grouped ==> Elems(grouped[id]) == Members(store.comments, part, id)
      requires forall id :: id in grouped ==>
        forall i, j :: 0 <= i < j < |grouped[id]| ==> grouped[id][i].id != grouped[id][j].id
      ensures result == map id | id in grouped :: MemberPage(store.comments, part, id, page)
    {
      result := map[];
      var remaining := grouped.Keys;
      while remaining != {}
        invariant remaining <= grouped.Keys && result.Keys == grouped.Keys - remaining
        invariant forall id :: id in result ==> result[id] == MemberPage(store.comments, part, id, page)
      {
        var id :| id in remaining;
        remaining := remaining - {id};
        var p := PaginateGroup(part, id, grouped[id], page);
        result := result[id := p];
      }
    }

    // The page of one group of the batch is the page it would get alone.
    method PaginateGroup(ghost part: Comment -> Option<Uuid>, ghost id: Uuid, rows: seq<Comment>, page: PageInput)
      returns (r: Page<Comment>)
      requires store.Valid() && page.first >= 0 && Elems(rows) == Members(store.comments, part, id)
      requires forall i, j :: 0 <= i < j < |rows| ==> rows[i].id != rows[j].id
      ensures r == MemberPage(store.comments, part, id, page)
    {
      r := PaginateSlice(rows, page);
    }

    // BatchCountTopLevel and BatchCountReplies.
    method BatchCount(part: Comment -> Option<Uuid>, ids: seq<Uuid>) returns (counts: map<Uuid, nat>)
      requires store.Valid()
      ensures counts == map id | id in ids :: |Members(store.comments, part, id)|
    {
      var idSet := set id | id in ids;
      counts := map id | id in idSet :: 0;
      var found := CommentsByPredicate(c => part(c).Some? && part(c).value in idSet);
      for i := 0 to |found|
        invariant counts.Keys == idSet
        invariant forall id :: id in idSet ==> counts[id] == |Group(found[..i], part, id)|
      {
        assert found[i] in found;
        var id := part(found[i]).value;
        forall k | k in idSet
          ensures Group(found[..i + 1], part, k) == Group(found[..i], part, k) + if k == id then [found[i]] else []
        {
          GroupStep(found, part, k, i);
        }
        counts := counts[id := counts[id] + 1];
      }
      assert found[..|found|] == found;
      forall id | id in idSet ensures counts[id] == |Members(store.comments, part, id)| {
        GroupIsMembers(store.comments, part, idSet, id, found);
        DistinctCount(Group(found, part, id));
      }
    }
  }

  lemma {:induction false} DistinctCount(s: seq<Comment>)
    requires forall i, j :: 0 <= i < j < |s| ==> s[i].id != s[j].id
    ensures |Elems(s)| == |s|
  {
    if s != [] {
      var init, last := s[..|s| - 1], s[|s| - 1];
      DistinctCount(init);
      assert s == init + [last];
      assert last !in init;
      assert Elems(s) == Elems(init) + {last};
    }
  }

  // The rows grouped under id are exactly its members.
  lemma GroupIsMembers(
    comments: Comments, part: Comment -> Option<Uuid>, idSet: set<Uuid>, id: Uuid, found: seq<Comment>)
    requires id in idSet
    requires forall c :: c in found <==> c in comments.Values && part(c).Some? && part(c).value in idSet
    requires forall i, j :: 0 <= i < j < |found| ==> found[i].id != found[j].id
    ensures Elems(Group(found, part, id)) == Members(comments, part, id)
    ensures forall i, j :: 0 <= i < j < |Group(found, part, id)| ==>
      Group(found, part, id)[i].id != Group(found, part, id)[j].id
  {
    var keep := (c: Comment) => part(c) == Some(id);
    FilterElems(found, keep);
    var rel := (a: Comment, b: Comment) => a.id != b.id;
    FilterPairs(found, keep, rel);
    var f := Filter(found, keep);
    assert f == Group(found, part, id);
    assert forall i, j :: 0 <= i < j < |f| ==> rel(f[i], f[j]);
  }

  class PostRepository {
    const store: Store

    constructor (store: Store)
      ensures this.store == store
    {
      this.store := store;
    }

    method Create(post: Post)
      requires store.Valid()
      modifies store
      ensures store.Valid() && store.comments == old(store.comments)
      ensures store.posts == old(store.posts)[post.id := post]
    {
      store.posts := store.posts[post.id := post];
    }

    method GetByID(id: PostID) returns (r: Result<Post, Error>)
      requires store.Valid()
      ensures r == if id in store.posts then Ok(store.posts[id]) else Err(NotFound("post", Text(id)))
      ensures r.Ok? ==> r.value.id == id
    {
      if id !in store.posts {
        return Err(NotFound("post", Text(id)));
      }
      return Ok(store.posts[id]);
    }

    method Update(post: Post) returns (r: Option<Error>)
      requires store.Valid()
      modifies store
      ensures store.Valid() && store.comments == old(store.comments)
      ensures post.id in old(store.posts) ==> r == None && store.posts == old(store.posts)[post.id := post]
      ensures post.id !in old(store.posts) ==>
        r == Some(NotFound("post", Text(post.id))) && store.posts == old(store.posts)
    {
      if post.id !in store.posts {
        return Some(NotFound("post", Text(post.id)));
      }
      store.posts := store.posts[post.id := post];
      return None;
    }

    // listPosts and snapshotPosts: the map is read in any order.
    method Snapshot() returns (result: seq<Post>)
      requires store.Valid()
      ensures Elems(result) == store.posts.Values
      ensures forall i, j :: 0 <= i < j < |result| ==> result[i].id != result[j].id
      ensures |result| == |store.posts|
    {
      result := [];
      var remaining := store.posts.Keys;
      while remaining != {}
        invariant remaining <= store.posts.Keys && |result| + |remaining| == |store.posts|
        invariant forall i :: 0 <= i < |result| ==>
          result[i].id in store.posts.Keys - remaining && store.posts[result[i].id] == result[i]
        invariant forall id :: id in store.posts.Keys - remaining ==> store.posts[id] in result
        invariant forall i, j :: 0 <= i < j < |result| ==> result[i].id != result[j].id
      {
        var id :| id in remaining;
        remaining := remaining - {id};
        result := result + [store.posts[id]];
      }
    }

    method List(page: PageInput) returns (r: Page<Post>)
      requires store.Valid() && page.first >= 0
      ensures Apart(store.posts.Values, PostCursor)
      ensures r == PageOf(store.posts.Values, PostCursor, page)
      ensures RightPosts(store.posts.Values, page, r)
    {
      var found := Snapshot();
      var rows := new Post[|found|](i requires 0 <= i < |found| => found[i]);
      assert rows[..] == found;
      forall i, j | 0 <= i < j < |found| ensures PostCursor(found[i]) != PostCursor(found[j]) {
        if PostCursor(found[i]) == PostCursor(found[j]) { TextInjective(found[i].id, found[j].id); }
      }
      r := Paginate(rows, PostCursor, page);
      PostPage(store.posts.Values, page);
    }

    method Count() returns (n: nat)
      ensures n == |store.posts|
    {
      n := |store.posts|;
    }
  }
}

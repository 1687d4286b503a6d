/** What pages promise, said on the fields of posts and comments, without cursors. */
module FieldOrder {
  import opened Wrappers
  import opened Uuids
  import opened Domain
  import opened Keyset

  // The later time comes first; of two at one time, the greater id.
  predicate Before(t: Time, id: Uuid, u: Time, other: Uuid)
  {
    t > u || (t == u && BytesLess(other.bytes, id.bytes))
  }

  // What comes after a cursor: an earlier time, or the same time and a smaller id.
  predicate Past(t: Time, id: Uuid, after: Option<Cursor>)
  {
    after.None? || t < after.value.createdAt || (t == after.value.createdAt && StrLess(Text(id), after.value.id))
  }

  lemma PostOrder(a: Post, b: Post)
    ensures Newer(PostCursor(a), PostCursor(b)) <==> Before(a.createdAt, a.id, b.createdAt, b.id)
  {
    TextOrderIsByteOrder(b.id, a.id);
  }

  lemma CommentOrder(a: Comment, b: Comment)
    ensures Newer(CommentCursor(a), CommentCursor(b)) <==> Before(a.createdAt, a.id, b.createdAt, b.id)
  {
    TextOrderIsByteOrder(b.id, a.id);
  }

  lemma PostPast(p: Post, after: Option<Cursor>)
    ensures After(PostCursor(p), after) <==> Past(p.createdAt, p.id, after)
  {
  }

  lemma CommentPast(c: Comment, after: Option<Cursor>)
    ensures After(CommentCursor(c), after) <==> Past(c.createdAt, c.id, after)
  {
  }

  // Sent back, the cursor of a comment asks for what is older than the comment.
  lemma CommentPastComment(c: Comment, d: Comment)
    ensures Past(c.createdAt, c.id, Some(CommentCursor(d))) <==> Before(d.createdAt, d.id, c.createdAt, c.id)
  {
    TextOrderIsByteOrder(c.id, d.id);
  }

  // The same of posts.
  lemma PostPastPost(p: Post, q: Post)
    ensures Past(p.createdAt, p.id, Some(PostCursor(q))) <==> Before(q.createdAt, q.id, p.createdAt, p.id)
  {
    TextOrderIsByteOrder(p.id, q.id);
  }

  predicate PostsInOrder(posts: seq<Post>)
  {
    forall i, j :: 0 <= i < j < |posts| ==>
      Before(posts[i].createdAt, posts[i].id, posts[j].createdAt, posts[j].id)
  }

  predicate CommentsInOrder(comments: seq<Comment>)
  {
    forall i, j :: 0 <= i < j < |comments| ==>
      Before(comments[i].createdAt, comments[i].id, comments[j].createdAt, comments[j].id)
  }

  lemma PostsDescend(posts: seq<Post>)
    ensures Descending(posts, PostCursor) <==> PostsInOrder(posts)
  {
    forall i, j | 0 <= i < j < |posts|
      ensures Newer(PostCursor(posts[i]), PostCursor(posts[j]))
         <==> Before(posts[i].createdAt, posts[i].id, posts[j].createdAt, posts[j].id)
    {
      PostOrder(posts[i], posts[j]);
    }
  }

  lemma CommentsDescend(comments: seq<Comment>)
    ensures Descending(comments, CommentCursor) <==> CommentsInOrder(comments)
  {
    forall i, j | 0 <= i < j < |comments|
      ensures Newer(CommentCursor(comments[i]), CommentCursor(comments[j]))
         <==> Before(comments[i].createdAt, comments[i].id, comments[j].createdAt, comments[j].id)
    {
      CommentOrder(comments[i], comments[j]);
    }
  }

  /** A page of posts: newest first, stored and past the cursor; as many as asked for if there is more, and all there
      are if not; and no newer post past the cursor is passed over. */
  ghost predicate RightPosts(s: set<Post>, page: PageInput, r: Page<Post>)
  {
    && PostsInOrder(r.items)
    && (forall p :: p in r.items ==> p in s && Past(p.createdAt, p.id, page.after))
    && (forall p, q :: p in s && Past(p.createdAt, p.id, page.after) && p !in r.items && q in r.items ==>
          Before(q.createdAt, q.id, p.createdAt, p.id))
    && |r.items| <= page.first && (r.hasNextPage ==> |r.items| == page.first)
    && (r.hasNextPage <==> exists p :: p in s && Past(p.createdAt, p.id, page.after) && p !in r.items)
  }

  ghost predicate RightComments(s: set<Comment>, page: PageInput, r: Page<Comment>)
  {
    && CommentsInOrder(r.items)
    && (forall c :: c in r.items ==> c in s && Past(c.createdAt, c.id, page.after))
    && (forall c, d :: c in s && Past(c.createdAt, c.id, page.after) && c !in r.items && d in r.items ==>
          Before(d.createdAt, d.id, c.createdAt, c.id))
    && |r.items| <= page.first && (r.hasNextPage ==> |r.items| == page.first)
    && (r.hasNextPage <==> exists c :: c in s && Past(c.createdAt, c.id, page.after) && c !in r.items)
  }

  // The sizes of a page, and what hasNextPage says.
  lemma PageSizes<T>(s: set<T>, key: T -> Cursor, page: PageInput, r: Page<T>)
    requires page.first >= 0 && IsPage(s, key, page, r)
    ensures |r.items| <= page.first && (r.hasNextPage ==> |r.items| == page.first)
    ensures r.hasNextPage <==> exists x :: x in Matching(s, key, page.after) && x !in r.items
  {
    var m := Matching(s, key, page.after);
    DescendingCount(r.items, key);
    if r.hasNextPage {
      var x :| x in m && x !in Elems(r.items);
      if |r.items| == |m| { SubsetSize(Elems(r.items), m); }
    }
  }

  lemma PostPage(s: set<Post>, page: PageInput)
    requires Apart(s, PostCursor) && page.first >= 0
    ensures RightPosts(s, page, PageOf(s, PostCursor, page))
  {
    var r := PageOf(s, PostCursor, page);
    PageOfIsPage(s, PostCursor, page);
    PageSizes(s, PostCursor, page, r);
    PostsDescend(r.items);
    forall p: Post
      ensures p in Matching(s, PostCursor, page.after) <==> p in s && Past(p.createdAt, p.id, page.after)
    {
      PostPast(p, page.after);
    }
    assert forall p :: p in r.items ==> p in Elems(r.items);
    forall p, q | p in Matching(s, PostCursor, page.after) && p !in r.items && q in r.items
      ensures Before(q.createdAt, q.id, p.createdAt, p.id)
    {
      PostOrder(q, p);
    }
  }

  lemma CommentPage(s: set<Comment>, page: PageInput)
    requires Apart(s, CommentCursor) && page.first >= 0
    ensures RightComments(s, page, PageOf(s, CommentCursor, page))
  {
    var r := PageOf(s, CommentCursor, page);
    PageOfIsPage(s, CommentCursor, page);
    PageSizes(s, CommentCursor, page, r);
    CommentsDescend(r.items);
    forall c: Comment
      ensures c in Matching(s, CommentCursor, page.after) <==> c in s && Past(c.createdAt, c.id, page.after)
    {
      CommentPast(c, page.after);
    }
    assert forall c :: c in r.items ==> c in Elems(r.items);
    forall c, d | c in Matching(s, CommentCursor, page.after) && c !in r.items && d in r.items
      ensures Before(d.createdAt, d.id, c.createdAt, c.id)
    {
      CommentOrder(d, c);
    }
  }
}

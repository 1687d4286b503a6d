/** The sets of comments that listings and counts are about, shared by both backends. */
module CommentSets {
  import opened Wrappers
  import opened Uuids
  import opened Domain
  import opened Keyset

  type Comments = map<CommentID, Comment>

  // Every row is stored under its own id.
  ghost predicate Keyed(comments: Comments) { forall id :: id in comments ==> comments[id].id == id }

  // The post whose top-level list shows the comment.
  function PostOf(c: Comment): Option<Uuid> { if c.parentID.None? then Some(c.postID) else None }

  // The comment whose reply list shows the comment.
  function ParentOf(c: Comment): Option<Uuid> { c.parentID }

  // The comments listed under id: a post's top-level comments or a comment's replies.
  ghost function Members(comments: Comments, part: Comment -> Option<Uuid>, id: Uuid): set<Comment>
  {
    set k | k in comments && part(comments[k]) == Some(id) :: comments[k]
  }

  ghost function TopLevel(comments: Comments, postID: PostID): set<Comment> { Members(comments, PostOf, postID) }

  ghost function Replies(comments: Comments, parentID: CommentID): set<Comment>
  {
    Members(comments, ParentOf, parentID)
  }

  lemma RowsApart(comments: Comments, rows: set<Comment>)
    requires Keyed(comments) && rows <= comments.Values
    ensures Apart(rows, CommentCursor)
  {
    forall x, y | x in rows && y in rows && CommentCursor(x) == CommentCursor(y) ensures x == y {
      assert x in comments.Values && y in comments.Values;
      TextInjective(x.id, y.id);
    }
  }

  lemma MembersApart(comments: Comments, part: Comment -> Option<Uuid>, id: Uuid)
    requires Keyed(comments)
    ensures Apart(Members(comments, part, id), CommentCursor)
  {
    RowsApart(comments, Members(comments, part, id));
  }

  // The page of comments listed under id.
  ghost function MemberPage(comments: Comments, part: Comment -> Option<Uuid>, id: Uuid, page: PageInput): Page<Comment>
    requires Keyed(comments) && page.first >= 0
  {
    MembersApart(comments, part, id);
    PageOf(Members(comments, part, id), CommentCursor, page)
  }

  // The rows listed under id, in row order.
  function Group(rows: seq<Comment>, part: Comment -> Option<Uuid>, id: Uuid): seq<Comment>
  {
    Filter(rows, (c: Comment) => part(c) == Some(id))
  }

  lemma GroupStep(rows: seq<Comment>, part: Comment -> Option<Uuid>, id: Uuid, i: nat)
    requires i < |rows|
    ensures Group(rows[..i + 1], part, id)
     == Group(rows[..i], part, id) + if part(rows[i]) == Some(id) then [rows[i]] else []
  {
    FilterStep(rows, (c: Comment) => part(c) == Some(id), i);
  }
}

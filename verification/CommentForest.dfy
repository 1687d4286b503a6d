/** Comments form trees under their posts; counting top-level comments and replies counts every comment once. */
module CommentForest {
  import opened Wrappers
  import opened Uuids
  import opened Domain
  import opened CommentSets

  // The post of every comment exists; so does its parent, if any, on the same post.
  ghost predicate Linked(posts: set<PostID>, comments: Comments)
  {
    forall id :: id in comments ==>
      && comments[id].postID in posts
      && (comments[id].parentID.Some? ==>
            comments[id].parentID.value in comments
            && comments[comments[id].parentID.value].postID == comments[id].postID)
  }

  // From a comment up to a top-level comment, all on one post, each one the parent of the one before.
  ghost predicate IsParentChain(comments: Comments, postID: PostID, chain: seq<CommentID>)
  {
    && chain != []
    && (forall i :: 0 <= i < |chain| ==> chain[i] in comments && comments[chain[i]].postID == postID)
    && (forall i :: 0 <= i < |chain| - 1 ==> comments[chain[i]].parentID == Some(chain[i + 1]))
    && comments[chain[|chain| - 1]].parentID == None
  }

  ghost predicate Rooted(comments: Comments, id: CommentID)
    requires id in comments
  {
    exists chain :: IsParentChain(comments, comments[id].postID, chain) && chain[0] == id
  }

  ghost predicate Forest(posts: set<PostID>, comments: Comments)
  {
    Linked(posts, comments) && forall id :: id in comments ==> Rooted(comments, id)
  }

  lemma OldStaysRooted(comments: Comments, c: Comment, id: CommentID)
    requires c.id !in comments && id in comments && Rooted(comments, id)
    ensures Rooted(comments[c.id := c], id)
  {
    var chain :| IsParentChain(comments, comments[id].postID, chain) && chain[0] == id;
    assert IsParentChain(comments[c.id := c], comments[id].postID, chain);
  }

  lemma ReplyIsRooted(comments: Comments, c: Comment, parent: CommentID)
    requires c.id !in comments && parent in comments && Rooted(comments, parent)
    requires c.parentID == Some(parent) && comments[parent].postID == c.postID
    ensures Rooted(comments[c.id := c], c.id)
  {
    var now := comments[c.id := c];
    var chain :| IsParentChain(comments, c.postID, chain) && chain[0] == parent;
    var longer := [c.id] + chain;
    forall i | 0 <= i < |longer| - 1 ensures now[longer[i]].parentID == Some(longer[i + 1]) {
      if i > 0 { assert comments[chain[i - 1]].parentID == Some(chain[i]); }
    }
    assert IsParentChain(now, c.postID, longer);
  }

  lemma AddKeepsLinks(posts: set<PostID>, comments: Comments, c: Comment)
    requires Linked(posts, comments) && c.id !in comments && c.postID in posts
    requires c.parentID.Some? ==> c.parentID.value in comments && comments[c.parentID.value].postID == c.postID
    ensures Linked(posts, comments[c.id := c])
  {
  }

  // Adding a comment under a fresh id, with its post and parent in place, keeps the forest.
  lemma AddKeepsForest(posts: set<PostID>, comments: Comments, c: Comment)
    requires Forest(posts, comments) && c.id !in comments && c.postID in posts
    requires c.parentID.Some? ==> c.parentID.value in comments && comments[c.parentID.value].postID == c.postID
    ensures Forest(posts, comments[c.id := c])
  {
    var now := comments[c.id := c];
    AddKeepsLinks(posts, comments, c);
    forall id | id in now ensures Rooted(now, id) {
      if id != c.id {
        OldStaysRooted(comments, c, id);
      } else if c.parentID.Some? {
        ReplyIsRooted(comments, c, c.parentID.value);
      } else {
        assert IsParentChain(now, c.postID, [id]);
      }
    }
  }

  ghost function SumOver(ids: set<Uuid>, f: Uuid -> nat): nat
  {
    if ids == {} then 0 else
      var id :| id in ids;
      f(id) + SumOver(ids - {id}, f)
  }

  lemma {:induction false} SumOverTake(ids: set<Uuid>, f: Uuid -> nat, x: Uuid)
    requires x in ids
    ensures SumOver(ids, f) == f(x) + SumOver(ids - {x}, f)
  {
    var id :| id in ids && SumOver(ids, f) == f(id) + SumOver(ids - {id}, f);
    if id != x {
      SumOverTake(ids - {id}, f, x);
      SumOverTake(ids - {x}, f, id);
      assert ids - {id} - {x} == ids - {x} - {id};
    }
  }

  ghost function Fiber(rows: set<Comment>, part: Comment -> Option<Uuid>, id: Uuid): set<Comment>
  {
    set c | c in rows && part(c) == Some(id)
  }

  // Rows each listed under one of ids are as many as the lists together.
  lemma {:induction false} FiberSum(rows: set<Comment>, part: Comment -> Option<Uuid>, ids: set<Uuid>, f: Uuid -> nat)
    requires forall c :: c in rows ==> part(c).Some? && part(c).value in ids
    requires forall id :: id in ids ==> f(id) == |Fiber(rows, part, id)|
    ensures |rows| == SumOver(ids, f)
    decreases ids
  {
    if ids == {} {
      assert rows == {};
    } else {
      var id :| id in ids && SumOver(ids, f) == f(id) + SumOver(ids - {id}, f);
      var fiber := Fiber(rows, part, id);
      var rest := rows - fiber;
      forall k | k in ids - {id} ensures f(k) == |Fiber(rest, part, k)| {
        assert Fiber(rest, part, k) == Fiber(rows, part, k);
      }
      FiberSum(rest, part, ids - {id}, f);
      assert rows == fiber + rest;
    }
  }

  lemma {:induction false} RowsOf(comments: Comments)
    requires Keyed(comments)
    ensures |comments.Values| == |comments|
    decreases |comments|
  {
    if comments != map[] {
      var id :| id in comments;
      var rest := comments - {id};
      RowsOf(rest);
      forall v | v in comments.Values ensures v in rest.Values + {comments[id]} {
        var k :| k in comments && comments[k] == v;
        assert k == id || (k in rest && rest[k] == v);
      }
      assert comments.Values == rest.Values + {comments[id]};
      assert comments[id] !in rest.Values;
    } else {
      assert comments.Values == {};
    }
  }

  ghost function Roots(comments: Comments): set<Comment> { set c | c in comments.Values && c.parentID.None? }

  ghost function NonRoots(comments: Comments): set<Comment> { set c | c in comments.Values && c.parentID.Some? }

  lemma RootsByPost(posts: set<PostID>, comments: Comments, f: Uuid -> nat)
    requires Linked(posts, comments)
    requires forall id :: f(id) == |TopLevel(comments, id)|
    ensures |Roots(comments)| == SumOver(posts, f)
  {
    forall id | id in posts ensures f(id) == |Fiber(Roots(comments), PostOf, id)| {
      assert TopLevel(comments, id) == Fiber(Roots(comments), PostOf, id);
    }
    FiberSum(Roots(comments), PostOf, posts, f);
  }

  lemma RepliesByParent(posts: set<PostID>, comments: Comments, f: Uuid -> nat)
    requires Linked(posts, comments)
    requires forall id :: f(id) == |Replies(comments, id)|
    ensures |NonRoots(comments)| == SumOver(comments.Keys, f)
  {
    forall id | id in comments.Keys ensures f(id) == |Fiber(NonRoots(comments), ParentOf, id)| {
      assert Replies(comments, id) == Fiber(NonRoots(comments), ParentOf, id);
    }
    FiberSum(NonRoots(comments), ParentOf, comments.Keys, f);
  }

  /** Total comments = sum over posts of the top-level counts + sum over comments of the reply counts. */
  lemma CountsAddUp(posts: set<PostID>, comments: Comments, topLevelCount: Uuid -> nat, replyCount: Uuid -> nat)
    requires Keyed(comments) && Linked(posts, comments)
    requires forall id :: topLevelCount(id) == |TopLevel(comments, id)|
    requires forall id :: replyCount(id) == |Replies(comments, id)|
    ensures |comments| == SumOver(posts, topLevelCount) + SumOver(comments.Keys, replyCount)
  {
    RootsByPost(posts, comments, topLevelCount);
    RepliesByParent(posts, comments, replyCount);
    assert comments.Values == Roots(comments) + NonRoots(comments);
    RowsOf(comments);
  }
}

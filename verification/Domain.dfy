module Wrappers {
  datatype Option<+T> = None | Some(value: T)

  datatype Result<+T, +E> = Ok(value: T) | Err(error: E)
}

/** Posts, comments, cursors and page requests (internal/domain). */
module Domain {
  import opened Wrappers
  import opened Uuids

  type PostID = Uuid
  type CommentID = Uuid
  type UserID = Uuid

  // An instant on one shared scale; 0 is Go's zero time.
  type Time = int

  datatype Error =
    | Validation(field: string, message: string)
    | NotFound(resource: string, id: string)
    | Forbidden(action: string, resource: string)
    | Conflict(resource: string, message: string)
    | Operation(op: string)
    | MissingRegistry

  const MAX_COMMENT_BODY_LENGTH := 2000

  datatype Cursor = Cursor(createdAt: Time, id: string)

  datatype Post = Post(
    id: PostID, authorID: UserID, title: string, content: string, commentsEnabled: bool, createdAt: Time)
  {
    // Pointer receiver in Go, called on a local copy: the changed copy is the result.
    function SetCommentsEnabled(actorID: UserID, enabled: bool): Result<Post, Error>
    {
      if actorID != authorID then Err(Forbidden("set comments availability", "post"))
      else Ok(this.(commentsEnabled := enabled))
    }

    // Everything except the flag.
    predicate SameButFlag(other: Post)
    {
      id == other.id && authorID == other.authorID && title == other.title && content == other.content
      && createdAt == other.createdAt
    }
  }

  datatype Comment = Comment(
    id: CommentID, postID: PostID, parentID: Option<CommentID>, authorID: UserID, body: string, createdAt: Time)

  // Post.Cursor and Comment.Cursor
  function PostCursor(post: Post): Cursor { Cursor(post.createdAt, Text(post.id)) }

  function CommentCursor(comment: Comment): Cursor { Cursor(comment.createdAt, Text(comment.id)) }

  // unicode.IsSpace
  predicate IsSpace(c: char)
  {
    c in {'\U{0009}', '\U{000A}', '\U{000B}', '\U{000C}', '\r', ' ', '\U{0085}', '\U{00A0}', '\U{1680}', '\U{2028}',
          '\U{2029}', '\U{202F}', '\U{205F}', '\U{3000}'}
    || '\U{2000}' <= c <= '\U{200A}'
  }

  // strings.TrimSpace(s) == ""
  predicate Blank(s: string) { forall i :: 0 <= i < |s| ==> IsSpace(s[i]) }

  function NewPost(id: PostID, authorID: UserID, title: string, content: string, createdAt: Time): Result<Post, Error>
  {
    if id == NIL then Err(Validation("id", "must not be empty"))
    else if authorID == NIL then Err(Validation("authorId", "must not be empty"))
    else if Blank(title) then Err(Validation("title", "must not be empty"))
    else if Blank(content) then Err(Validation("content", "must not be empty"))
    else if createdAt == 0 then Err(Validation("createdAt", "must not be empty"))
    else Ok(Post(id, authorID, title, content, true, createdAt))
  }

  function NewComment(
    id: CommentID, postID: PostID, parentID: Option<CommentID>, authorID: UserID, body: string, createdAt: Time)
    : Result<Comment, Error>
  {
    if id == NIL then Err(Validation("id", "must not be empty"))
    else if postID == NIL then Err(Validation("postId", "must not be empty"))
    else if authorID == NIL then Err(Validation("authorId", "must not be empty"))
    else if parentID == Some(NIL) then Err(Validation("parentId", "must not be empty"))
    else if Blank(body) then Err(Validation("body", "must not be empty"))
    else if |body| > MAX_COMMENT_BODY_LENGTH then Err(Validation("body", "must be at most 2000 characters"))
    else if createdAt == 0 then Err(Validation("createdAt", "must not be empty"))
    else Ok(Comment(id, postID, parentID, authorID, body, createdAt))
  }

  /** The text form of a cursor, JSON under base64url, comes from libraries: both directions are parameters. */
  datatype Codec = Codec(marshal: Cursor -> Option<string>, unmarshal: string -> Option<Cursor>)
  {
    function Encode(cursor: Cursor): Result<string, Error>
    {
      match marshal(cursor)
      case None => Err(Operation("marshal cursor"))
      case Some(text) => Ok(text)
    }

    function Decode(raw: string): Result<Cursor, Error>
    {
      match unmarshal(raw)
      case None => Err(Validation("after", "invalid cursor"))
      case Some(cursor) =>
        if cursor.createdAt == 0 || cursor.id == "" then Err(Validation("after", "invalid cursor")) else Ok(cursor)
    }

    // What the library round trip promises for one cursor.
    predicate RoundTrips(cursor: Cursor)
    {
      && marshal(cursor).Some?
      && marshal(cursor).value != ""
      && unmarshal(marshal(cursor).value) == Some(cursor)
    }
  }

  datatype PageInput = PageInput(first: int, after: Option<Cursor>)
  {
    function LimitPlusOne(): int { first + 1 }
  }

  datatype Page<+T> = Page(items: seq<T>, hasNextPage: bool)

  function NewPageInput(codec: Codec, first: int, after: Option<string>): Result<PageInput, Error>
  {
    if first <= 0 then Err(Validation("first", "must be greater than zero"))
    else if after.None? || after.value == "" then Ok(PageInput(first, None))
    else
      match codec.Decode(after.value)
      case Err(e) => Err(e)
      case Ok(cursor) => Ok(PageInput(first, Some(cursor)))
  }

  predicate CursorMatchesAfter(createdAt: Time, id: string, after: Option<Cursor>)
  {
    after.None?
    || createdAt < after.value.createdAt
    || (createdAt == after.value.createdAt && StrLess(id, after.value.id))
  }

  // unicode.IsSpace by code points.
  lemma SpaceTable(c: char)
    ensures IsSpace(c) <==>
      (c as int) in {0x09, 0x0A, 0x0B, 0x0C, 0x0D, 0x20, 0x85, 0xA0, 0x1680, 0x2028, 0x2029, 0x202F, 0x205F, 0x3000}
      || 0x2000 <= c as int <= 0x200A
  {
  }

  // The names of the fields that fail their check, in the order of the checks.
  function When(fails: bool, field: string): seq<string> { if fails then [field] else [] }

  ghost predicate Visible(s: string) { exists i :: 0 <= i < |s| && !IsSpace(s[i]) }

  lemma SameButFlagExact(p: Post, q: Post)
    ensures p.SameButFlag(q) <==> p == q.(commentsEnabled := p.commentsEnabled)
  {
  }

  // The author's call changes the flag, to the value asked for, and nothing else; another actor's is refused.
  lemma SetCommentsEnabledExact(p: Post, actorID: UserID, enabled: bool)
    ensures var r := p.SetCommentsEnabled(actorID, enabled);
      if actorID == p.authorID
      then r.Ok? && r.value.commentsEnabled == enabled && r.value.SameButFlag(p)
      else r == Err(Forbidden("set comments availability", "post"))
  {
  }

  /** A post is made exactly from two ids, a title, a content and a time that are all there; it is enabled, and
      otherwise what was given. A refusal names the first field that fails. */
  lemma NewPostExact(id: PostID, authorID: UserID, title: string, content: string, createdAt: Time)
    ensures var r := NewPost(id, authorID, title, content, createdAt);
      var failing := When(id == NIL, "id") + When(authorID == NIL, "authorId") + When(!Visible(title), "title")
        + When(!Visible(content), "content") + When(createdAt == 0, "createdAt");
      if failing == [] then r == Ok(Post(id, authorID, title, content, true, createdAt))
      else r == Err(Validation(failing[0], "must not be empty"))
  {
  }

  /** The same of a comment, whose parent, if any, must have an id, and whose body has at most 2000 characters. */
  lemma NewCommentExact(
    id: CommentID, postID: PostID, parentID: Option<CommentID>, authorID: UserID, body: string, createdAt: Time)
    ensures var r := NewComment(id, postID, parentID, authorID, body, createdAt);
      var failing := When(id == NIL, "id") + When(postID == NIL, "postId") + When(authorID == NIL, "authorId")
        + When(parentID == Some(NIL), "parentId") + When(!Visible(body) || |body| > 2000, "body")
        + When(createdAt == 0, "createdAt");
      if failing == [] then r == Ok(Comment(id, postID, parentID, authorID, body, createdAt))
      else
        r == Err(Validation(
          failing[0],
          if failing[0] == "body" && Visible(body) then "must be at most 2000 characters" else "must not be empty"))
  {
  }

  // A cursor is accepted exactly when its text is read, with a time and an id.
  lemma DecodeExact(codec: Codec, raw: string, cursor: Cursor)
    ensures codec.Decode(raw) == Ok(cursor) <==>
      codec.unmarshal(raw) == Some(cursor) && cursor.createdAt != 0 && cursor.id != ""
    ensures codec.Decode(raw).Err? ==> codec.Decode(raw) == Err(Validation("after", "invalid cursor"))
  {
  }

  /** A page request keeps the size asked for, which must be positive, and the cursor, if one is given; it is refused
      for its size first. */
  lemma PageInputExact(codec: Codec, first: int, after: Option<string>)
    ensures first <= 0 ==> NewPageInput(codec, first, after) == Err(Validation("first", "must be greater than zero"))
    ensures first > 0 && (after == None || after == Some("")) ==>
      NewPageInput(codec, first, after) == Ok(PageInput(first, None))
    ensures first > 0 && after.Some? && after.value != "" ==>
      NewPageInput(codec, first, after) ==
        match codec.Decode(after.value) { case Err(e) => Err(e) case Ok(cursor) => Ok(PageInput(first, Some(cursor))) }
  {
  }
}

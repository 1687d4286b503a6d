/** Transactions and after-commit actions, one service call at a time: both transaction managers, the registry, and the
    three writing service calls as the work done inside a transaction. */
module Transactions {
  import opened Wrappers
  import opened Uuids
  import opened Domain
  import opened CommentSets
  import EventBus

  datatype Tables = Tables(posts: map<PostID, Post>, comments: Comments)

  // The only action that the services register: publish an event.
  datatype Action = Publish(event: EventBus.Event)

  // What happened, in order; Ran is an after-commit action being called.
  datatype Happening = Began | Committed | CommitFailed | RolledBack | Ran(action: Action)

  // The steps that PostgreSQL may fail.
  datatype Faults = Faults(
    begin: bool, readPost: bool, readParent: bool, write: bool, rollback: bool, commit: bool)

  const NO_FAULTS := Faults(false, false, false, false, false, false)

  function Runs(actions: seq<Action>): seq<Happening>
  {
    seq(|actions|, i requires 0 <= i < |actions| => Ran(actions[i]))
  }

  lemma RunsInOrder(actions: seq<Action>, i: nat)
    requires i < |actions|
    ensures |Runs(actions)| == |actions| && Runs(actions)[i] == Ran(actions[i])
  {
  }

  // What the repositories read and write: the store itself in memory, the transaction's own view in PostgreSQL.
  class Rows {
    var tables: Tables

    constructor (tables: Tables)
      ensures this.tables == tables
    {
      this.tables := tables;
    }
  }

  // The stored rows, and what has happened.
  class Database {
    const rows: Rows
    var history: seq<Happening>

    constructor ()
      ensures fresh(rows) && rows.tables == Tables(map[], map[]) && history == []
    {
      rows := new Rows(Tables(map[], map[]));
      history := [];
    }
  }

  class Registry {
    var actions: seq<Action>

    constructor ()
      ensures actions == []
    {
      actions := [];
    }

    // Each registered action is called once, in order.
    method Run(db: Database)
      modifies db`history
      ensures db.history == old(db.history) + Runs(actions)
    {
      for i := 0 to |actions|
        invariant db.history == old(db.history) + Runs(actions[..i])
      {
        db.history := db.history + [Ran(actions[i])];
        assert actions[..i + 1] == actions[..i] + [actions[i]];
      }
      assert actions[..|actions|] == actions;
    }
  }

  // What the context given to a transaction's function carries; a context need not hold a registry.
  datatype Context = Context(rows: Rows, registry: Registry?)

  // AfterCommit: the registry comes from the context; without one it is an error.
  method AfterCommit(ctx: Context, action: Action) returns (err: Option<Error>)
    modifies if ctx.registry == null then {} else {ctx.registry}
    ensures ctx.registry == null ==> err == Some(MissingRegistry)
    ensures ctx.registry != null ==> err == None && ctx.registry.actions == old(ctx.registry.actions) + [action]
  {
    if ctx.registry == null {
      return Some(MissingRegistry);
    }
    ctx.registry.actions := ctx.registry.actions + [action];
    return None;
  }

  datatype NewPostInput = NewPostInput(authorID: UserID, title: string, content: string)

  datatype FlagInput = FlagInput(postID: PostID, actorID: UserID, enabled: bool)

  datatype NewCommentInput = NewCommentInput(
    postID: PostID, parentID: Option<CommentID>, authorID: UserID, body: string)

  /** What a transaction's function leaves: rows, registrations in order, and what it returns. */
  datatype Done<+T> = Done(tables: Tables, actions: seq<Action>, outcome: Result<T, Error>)

  function PostDone(t: Tables, input: NewPostInput, id: Uuid, now: Time, faults: Faults): Done<Post>
  {
    match NewPost(id, input.authorID, input.title, input.content, now)
    case Err(e) => Done(t, [], Err(e))
    case Ok(post) =>
      if faults.write then Done(t, [], Err(Operation("insert post")))
      else Done(t.(posts := t.posts[post.id := post]), [], Ok(post))
  }

  function FlagDone(t: Tables, input: FlagInput, faults: Faults): Done<Post>
  {
    if faults.readPost then Done(t, [], Err(Operation("scan post")))
    else if input.postID !in t.posts then Done(t, [], Err(NotFound("post", Text(input.postID))))
    else match t.posts[input.postID].SetCommentsEnabled(input.actorID, input.enabled)
      case Err(e) => Done(t, [], Err(e))
      case Ok(post) =>
        if faults.write then Done(t, [], Err(Operation("update post")))
        else if post.id !in t.posts then Done(t, [], Err(NotFound("post", Text(post.id))))
        else Done(t.(posts := t.posts[post.id := post]), [], Ok(post))
  }

  // Why CreateComment refuses, if it does: the checks before the insert.
  function Refusal(t: Tables, input: NewCommentInput, faults: Faults): Option<Error>
  {
    if faults.readPost then Some(Operation("scan post"))
    else if input.postID !in t.posts then Some(NotFound("post", Text(input.postID)))
    else if !t.posts[input.postID].commentsEnabled then Some(Conflict("post", "comments are disabled"))
    else if input.parentID.None? then None
    else if faults.readParent then Some(Operation("scan comment"))
    else if input.parentID.value !in t.comments then Some(NotFound("comment", Text(input.parentID.value)))
    else if t.comments[input.parentID.value].postID != input.postID then
      Some(Conflict("comment", "parent comment belongs to a different post"))
    else None
  }

  // registered: whether the context holds a registry. Without one the comment is written and the call fails.
  function CommentDone(
    t: Tables, input: NewCommentInput, id: Uuid, now: Time, publisher: bool, registered: bool, faults: Faults)
    : Done<Comment>
  {
    if Refusal(t, input, faults).Some? then Done(t, [], Err(Refusal(t, input, faults).value))
    else match NewComment(id, input.postID, input.parentID, input.authorID, input.body, now)
      case Err(e) => Done(t, [], Err(e))
      case Ok(comment) =>
        if faults.write then Done(t, [], Err(Operation("insert comment")))
        else
          var written := t.(comments := t.comments[comment.id := comment]);
          if !publisher then Done(written, [], Ok(comment))
          else if !registered then Done(written, [], Err(MissingRegistry))
          else Done(
            written, [Publish(EventBus.CommentAdded(comment.postID, comment.id, comment.authorID))], Ok(comment))
  }

  method GetPost(ctx: Context, id: PostID, fails: bool) returns (r: Result<Post, Error>)
    ensures r ==
      if fails then Err(Operation("scan post"))
      else if id !in ctx.rows.tables.posts then Err(NotFound("post", Text(id)))
      else Ok(ctx.rows.tables.posts[id])
  {
    if fails {
      return Err(Operation("scan post"));
    }
    if id !in ctx.rows.tables.posts {
      return Err(NotFound("post", Text(id)));
    }
    return Ok(ctx.rows.tables.posts[id]);
  }

  method GetComment(ctx: Context, id: CommentID, fails: bool) returns (r: Result<Comment, Error>)
    ensures r ==
      if fails then Err(Operation("scan comment"))
      else if id !in ctx.rows.tables.comments then Err(NotFound("comment", Text(id)))
      else Ok(ctx.rows.tables.comments[id])
  {
    if fails {
      return Err(Operation("scan comment"));
    }
    if id !in ctx.rows.tables.comments {
      return Err(NotFound("comment", Text(id)));
    }
    return Ok(ctx.rows.tables.comments[id]);
  }

  // The function that CreatePost gives to WithinTx.
  method CreatePostWork(ctx: Context, input: NewPostInput, id: Uuid, now: Time, faults: Faults)
    returns (r: Result<Post, Error>)
    modifies ctx.rows
    ensures var d := PostDone(old(ctx.rows.tables), input, id, now, faults);
      r == d.outcome && ctx.rows.tables == d.tables
  {
    r := NewPost(id, input.authorID, input.title, input.content, now);
    if r.Err? {
      return;
    }
    if faults.write {
      return Err(Operation("insert post"));
    }
    ctx.rows.tables := ctx.rows.tables.(posts := ctx.rows.tables.posts[r.value.id := r.value]);
  }

  // The function that SetCommentsEnabled gives to WithinTx: read, change the copy, write it back.
  method SetCommentsEnabledWork(ctx: Context, input: FlagInput, faults: Faults) returns (r: Result<Post, Error>)
    modifies ctx.rows
    ensures var d := FlagDone(old(ctx.rows.tables), input, faults); r == d.outcome && ctx.rows.tables == d.tables
  {
    r := GetPost(ctx, input.postID, faults.readPost);
    if r.Err? {
      return;
    }
    r := r.value.SetCommentsEnabled(input.actorID, input.enabled);
    if r.Err? {
      return;
    }
    if faults.write {
      return Err(Operation("update post"));
    }
    if r.value.id !in ctx.rows.tables.posts {
      return Err(NotFound("post", Text(r.value.id)));
    }
    ctx.rows.tables := ctx.rows.tables.(posts := ctx.rows.tables.posts[r.value.id := r.value]);
  }

  // The function that CreateComment gives to WithinTx: checks, write, and only then the registration, which may fail.
  method CreateCommentWork(ctx: Context, input: NewCommentInput, id: Uuid, now: Time, publisher: bool, faults: Faults)
    returns (r: Result<Comment, Error>)
    modifies ctx.rows, if ctx.registry == null then {} else {ctx.registry}
    ensures var d := CommentDone(old(ctx.rows.tables), input, id, now, publisher, ctx.registry != null, faults);
      && r == d.outcome && ctx.rows.tables == d.tables
      && (ctx.registry != null ==> ctx.registry.actions == old(ctx.registry.actions) + d.actions)
  {
    var post := GetPost(ctx, input.postID, faults.readPost);
    if post.Err? {
      return Err(post.error);
    }
    if !post.value.commentsEnabled {
      return Err(Conflict("post", "comments are disabled"));
    }
    if input.parentID.Some? {
      var parent := GetComment(ctx, input.parentID.value, faults.readParent);
      if parent.Err? {
        return Err(parent.error);
      }
      if parent.value.postID != input.postID {
        return Err(Conflict("comment", "parent comment belongs to a different post"));
      }
    }
    r := NewComment(id, input.postID, input.parentID, input.authorID, input.body, now);
    if r.Err? {
      return;
    }
    if faults.write {
      return Err(Operation("insert comment"));
    }
    ctx.rows.tables := ctx.rows.tables.(comments := ctx.rows.tables.comments[r.value.id := r.value]);
    if publisher {
      var err := AfterCommit(ctx, Publish(EventBus.CommentAdded(r.value.postID, r.value.id, r.value.authorID)));
      if err.Some? {
        return Err(err.value);
      }
    }
  }

  /** Why CreateComment refuses: what fails first of reading the post, its presence, its flag, reading the parent, its
      presence and its post. */
  lemma RefusalExact(t: Tables, input: NewCommentInput, faults: Faults)
    ensures var r, p := Refusal(t, input, faults), input.parentID;
      var postThere := !faults.readPost && input.postID in t.posts;
      var postOpen := postThere && t.posts[input.postID].commentsEnabled;
      var parentRead := postOpen && (p.None? || !faults.readParent);
      var parentThere := parentRead && (p.None? || p.value in t.comments);
      && (r == Some(Operation("scan post")) <==> faults.readPost)
      && (r == Some(NotFound("post", Text(input.postID))) <==> !faults.readPost && !postThere)
      && (r == Some(Conflict("post", "comments are disabled")) <==> postThere && !postOpen)
      && (r == Some(Operation("scan comment")) <==> postOpen && !parentRead)
      && (p.Some? ==> (r == Some(NotFound("comment", Text(p.value))) <==> parentRead && !parentThere))
      && (r == Some(Conflict("comment", "parent comment belongs to a different post")) <==>
            parentThere && p.Some? && t.comments[p.value].postID != input.postID)
      && (r == None <==> parentThere && (p.Some? ==> t.comments[p.value].postID == input.postID))
  {
  }

  /** The exact condition under which CreateComment's function fails after its write: there is no registry, it has to
      publish, and nothing else is wrong. */
  lemma FailsAfterWriteIff(
    t: Tables, input: NewCommentInput, id: Uuid, now: Time, publisher: bool, registered: bool, faults: Faults)
    requires id !in t.comments
    ensures var d := CommentDone(t, input, id, now, publisher, registered, faults);
      d.outcome.Err? && d.tables != t <==>
        && publisher && !registered && !faults.write && Refusal(t, input, faults).None?
        && NewComment(id, input.postID, input.parentID, input.authorID, input.body, now).Ok?
  {
    var made := NewComment(id, input.postID, input.parentID, input.authorID, input.body, now);
    if made.Ok? {
      assert made.value.id == id;
      assert id in t.comments[id := made.value];
    }
  }

  // The functions that the services give to WithinTx, with what they have captured; and any other: what rows it leaves,
  // which actions it registers in order and what it returns may depend on the rows in any way.
  datatype Work =
    | CreatePostOf(post: NewPostInput, id: Uuid, now: Time)
    | SetFlagOf(flag: FlagInput)
    | CreateCommentOf(comment: NewCommentInput, id: Uuid, now: Time, publisher: bool)
    | AnyOf(run: Tables -> Done<Made>)

  // What they leave in the variable that the service returns.
  datatype Made = MadePost(post: Post) | MadeComment(comment: Comment)

  function WorkDone(t: Tables, work: Work, registered: bool, faults: Faults): Done<Made>
  {
    match work
    case CreatePostOf(input, id, now) => Posted(PostDone(t, input, id, now, faults))
    case SetFlagOf(input) => Posted(FlagDone(t, input, faults))
    case CreateCommentOf(input, id, now, publisher) =>
      var d := CommentDone(t, input, id, now, publisher, registered, faults);
      Done(d.tables, d.actions, if d.outcome.Ok? then Ok(MadeComment(d.outcome.value)) else Err(d.outcome.error))
    case AnyOf(run) =>
      if registered || run(t).actions == [] then run(t) else Done(run(t).tables, [], Err(MissingRegistry))
  }

  function Posted(d: Done<Post>): Done<Made>
  {
    Done(d.tables, d.actions, if d.outcome.Ok? then Ok(MadePost(d.outcome.value)) else Err(d.outcome.error))
  }

  // The registrations of a function that makes any number of them; the first one that fails ends it.
  method RegisterAll(ctx: Context, actions: seq<Action>) returns (err: Option<Error>)
    modifies if ctx.registry == null then {} else {ctx.registry}
    ensures err == if ctx.registry == null && actions != [] then Some(MissingRegistry) else None
    ensures ctx.registry != null ==> ctx.registry.actions == old(ctx.registry.actions) + actions
  {
    for i := 0 to |actions|
      invariant i > 0 ==> ctx.registry != null
      invariant ctx.registry != null ==> ctx.registry.actions == old(ctx.registry.actions) + actions[..i]
    {
      err := AfterCommit(ctx, actions[i]);
      if err.Some? {
        return;
      }
      assert actions[..i + 1] == actions[..i] + [actions[i]];
    }
    assert actions[..|actions|] == actions;
    return None;
  }

  method PerformAny(run: Tables -> Done<Made>, ctx: Context) returns (r: Result<Made, Error>)
    modifies ctx.rows, if ctx.registry == null then {} else {ctx.registry}
    ensures var d := WorkDone(old(ctx.rows.tables), AnyOf(run), ctx.registry != null, NO_FAULTS);
      && r == d.outcome && ctx.rows.tables == d.tables
      && (ctx.registry != null ==> ctx.registry.actions == old(ctx.registry.actions) + d.actions)
  {
    var done := run(ctx.rows.tables);
    ctx.rows.tables := done.tables;
    var err := RegisterAll(ctx, done.actions);
    if err.Some? {
      return Err(err.value);
    }
    return done.outcome;
  }

  method Perform(work: Work, ctx: Context, faults: Faults) returns (r: Result<Made, Error>)
    modifies ctx.rows, if ctx.registry == null then {} else {ctx.registry}
    ensures var d := WorkDone(old(ctx.rows.tables), work, ctx.registry != null, faults);
      && r == d.outcome && ctx.rows.tables == d.tables
      && (ctx.registry != null ==> ctx.registry.actions == old(ctx.registry.actions) + d.actions)
  {
    match work {
      case CreatePostOf(input, id, now) =>
        var post := CreatePostWork(ctx, input, id, now, faults);
        r := if post.Ok? then Ok(MadePost(post.value)) else Err(post.error);
      case SetFlagOf(input) =>
        var post := SetCommentsEnabledWork(ctx, input, faults);
        r := if post.Ok? then Ok(MadePost(post.value)) else Err(post.error);
      case CreateCommentOf(input, id, now, publisher) =>
        var comment := CreateCommentWork(ctx, input, id, now, publisher, faults);
        r := if comment.Ok? then Ok(MadeComment(comment.value)) else Err(comment.error);
      case AnyOf(run) =>
        r := PerformAny(run, ctx);
    }
  }

  /** PostgreSQL's WithinTx: the function works on the transaction's view with a registry in its context; actions run
      once each, in order, after the commit, and only if function and commit succeed; otherwise no stored row changes
      and nothing runs. */
  method WithinTx(db: Database, work: Work, faults: Faults) returns (r: Result<Made, Error>)
    modifies db, db.rows
    ensures var done := WorkDone(old(db.rows.tables), work, true, faults);
      if faults.begin then
        && r == Err(Operation("begin postgres transaction"))
        && db.rows.tables == old(db.rows.tables) && db.history == old(db.history)
      else if done.outcome.Err? then
        && r == Err(if faults.rollback then Operation("rollback postgres transaction") else done.outcome.error)
        && db.rows.tables == old(db.rows.tables) && db.history == old(db.history) + [Began, RolledBack]
      else if faults.commit then
        && r == Err(Operation("commit postgres transaction"))
        && db.rows.tables == old(db.rows.tables) && db.history == old(db.history) + [Began, CommitFailed]
      else
        && r == done.outcome
        && db.rows.tables == done.tables && db.history == old(db.history) + [Began, Committed] + Runs(done.actions)
  {
    if faults.begin {
      return Err(Operation("begin postgres transaction"));
    }
    ghost var was := db.history;
    db.history := db.history + [Began];
    var tx := new Rows(db.rows.tables);
    var registry := new Registry();
    r := Perform(work, Context(tx, registry), faults);
    if r.Err? {
      db.history := db.history + [RolledBack];
      if faults.rollback {
        return Err(Operation("rollback postgres transaction"));
      }
      return;
    }
    if faults.commit {
      db.history := db.history + [CommitFailed];
      return Err(Operation("commit postgres transaction"));
    }
    db.rows.tables := tx.tables;
    db.history := db.history + [Committed];
    assert db.history == was + [Began, Committed];
    registry.Run(db);
  }

  /** The memory WithinTx: the function writes to the store itself and nothing is rolled back; it too has a registry in
      its context. */
  method WithinTxInMemory(db: Database, work: Work) returns (r: Result<Made, Error>)
    modifies db, db.rows
    ensures var done := WorkDone(old(db.rows.tables), work, true, NO_FAULTS);
      && r == done.outcome
      && db.rows.tables == done.tables
      && db.history == old(db.history) + if done.outcome.Ok? then Runs(done.actions) else []
  {
    var registry := new Registry();
    r := Perform(work, Context(db.rows, registry), NO_FAULTS);
    if r.Err? {
      return;
    }
    registry.Run(db);
  }

  // The comment may be made: its post is there and open, its parent, if any, is on the same post.
  predicate Acceptable(t: Tables, input: NewCommentInput)
  {
    && input.postID in t.posts && t.posts[input.postID].commentsEnabled
    && (input.parentID.Some? ==>
          input.parentID.value in t.comments && t.comments[input.parentID.value].postID == input.postID)
  }

  function PublishesIn(history: seq<Happening>): seq<EventBus.Event>
  {
    if history == [] then []
    else
      var init := PublishesIn(history[..|history| - 1]);
      var last := history[|history| - 1];
      if last.Ran? then init + [last.action.event] else init
  }

  lemma PublishesAppend(history: seq<Happening>, e: Happening)
    ensures PublishesIn(history + [e]) == PublishesIn(history) + if e.Ran? then [e.action.event] else []
  {
    assert (history + [e])[..|history|] == history;
  }

  lemma QuietPair(was: seq<Happening>, a: Happening, b: Happening)
    requires !a.Ran? && !b.Ran?
    ensures PublishesIn(was + [a, b]) == PublishesIn(was)
  {
    PublishesAppend(was, a);
    PublishesAppend(was + [a], b);
    assert was + [a] + [b] == was + [a, b];
  }

  lemma RunsAtMostOne(was: seq<Happening>, actions: seq<Action>)
    requires |actions| <= 1
    ensures PublishesIn(was + Runs(actions)) == PublishesIn(was) + if actions == [] then [] else [actions[0].event]
  {
    if actions == [] {
      assert was + Runs(actions) == was;
    } else {
      assert Runs(actions) == [Ran(actions[0])];
      PublishesAppend(was, Ran(actions[0]));
    }
  }

  // The publishes of a history that one WithinTx has extended.
  lemma TxPublishes(was: seq<Happening>, actions: seq<Action>)
    requires |actions| <= 1
    ensures var published := if actions == [] then [] else [actions[0].event];
      && PublishesIn(was + [Began, Committed] + Runs(actions)) == PublishesIn(was) + published
      && PublishesIn(was + Runs(actions)) == PublishesIn(was) + published
    ensures PublishesIn(was + [Began, RolledBack]) == PublishesIn(was)
    ensures PublishesIn(was + [Began, CommitFailed]) == PublishesIn(was)
    ensures PublishesIn(was + []) == PublishesIn(was)
  {
    QuietPair(was, Began, Committed);
    QuietPair(was, Began, RolledBack);
    QuietPair(was, Began, CommitFailed);
    RunsAtMostOne(was, actions);
    RunsAtMostOne(was + [Began, Committed], actions);
    assert was + [] == was;
  }

  // With a registry, CreateComment's function succeeds exactly on acceptable input, and fails without a trace.
  lemma CommentDoneMeaning(t: Tables, input: NewCommentInput, id: Uuid, now: Time, publisher: bool, faults: Faults)
    ensures var d := CommentDone(t, input, id, now, publisher, true, faults);
      && (d.outcome.Ok? <==>
            && !faults.readPost && !(input.parentID.Some? && faults.readParent) && !faults.write && Acceptable(t, input)
            && NewComment(id, input.postID, input.parentID, input.authorID, input.body, now).Ok?)
      && (d.outcome.Ok? ==>
            && d.outcome.value == Comment(id, input.postID, input.parentID, input.authorID, input.body, now)
            && d.tables == t.(comments := t.comments[id := d.outcome.value])
            && d.actions ==
                 if publisher then [Publish(EventBus.CommentAdded(input.postID, id, input.authorID))] else [])
      && (d.outcome.Err? ==> d.tables == t && d.actions == [] && d.outcome.error != MissingRegistry)
  {
  }

  /** CreateComment on PostgreSQL: it returns a comment exactly when the input is acceptable and nothing fails; then
      the comment is stored and, with a publisher, published once, after the commit. On an error no row has changed
      and nothing has been published; the error is never that of a missing registry. */
  method CreateComment(db: Database, input: NewCommentInput, id: Uuid, now: Time, publisher: bool, faults: Faults)
    returns (r: Result<Comment, Error>)
    modifies db, db.rows
    ensures r.Ok? <==>
      && !faults.begin && !faults.readPost && !(input.parentID.Some? && faults.readParent)
      && !faults.write && !faults.commit
      && Acceptable(old(db.rows.tables), input)
      && NewComment(id, input.postID, input.parentID, input.authorID, input.body, now).Ok?
    ensures r.Ok? ==>
      && r.value == Comment(id, input.postID, input.parentID, input.authorID, input.body, now)
      && db.rows.tables == old(db.rows.tables).(comments := old(db.rows.tables).comments[id := r.value])
      && PublishesIn(db.history) == PublishesIn(old(db.history))
           + if publisher then [EventBus.CommentAdded(input.postID, id, input.authorID)] else []
    ensures r.Err? ==> db.rows.tables == old(db.rows.tables) && PublishesIn(db.history) == PublishesIn(old(db.history))
    ensures r != Err(MissingRegistry)
  {
    ghost var done := CommentDone(db.rows.tables, input, id, now, publisher, true, faults);
    CommentDoneMeaning(db.rows.tables, input, id, now, publisher, faults);
    TxPublishes(db.history, done.actions);
    var made := WithinTx(db, CreateCommentOf(input, id, now, publisher), faults);
    if made.Err? {
      return Err(made.error);
    }
    return Ok(made.value.comment);
  }

  /** CreateComment on the memory backend meets the same description, with nothing that can fail: although nothing is
      rolled back, an error leaves every row as it was, because WithinTx provides the registry. */
  method CreateCommentInMemory(db: Database, input: NewCommentInput, id: Uuid, now: Time, publisher: bool)
    returns (r: Result<Comment, Error>)
    modifies db, db.rows
    ensures r.Ok? <==>
      && Acceptable(old(db.rows.tables), input)
      && NewComment(id, input.postID, input.parentID, input.authorID, input.body, now).Ok?
    ensures r.Ok? ==>
      && r.value == Comment(id, input.postID, input.parentID, input.authorID, input.body, now)
      && db.rows.tables == old(db.rows.tables).(comments := old(db.rows.tables).comments[id := r.value])
      && PublishesIn(db.history) == PublishesIn(old(db.history))
           + if publisher then [EventBus.CommentAdded(input.postID, id, input.authorID)] else []
    ensures r.Err? ==> db.rows.tables == old(db.rows.tables) && PublishesIn(db.history) == PublishesIn(old(db.history))
    ensures r != Err(MissingRegistry)
  {
    ghost var was := db.history;
    ghost var done := CommentDone(db.rows.tables, input, id, now, publisher, true, NO_FAULTS);
    CommentDoneMeaning(db.rows.tables, input, id, now, publisher, NO_FAULTS);
    TxPublishes(was, done.actions);
    var made := WithinTxInMemory(db, CreateCommentOf(input, id, now, publisher));
    assert db.history == was + if done.outcome.Ok? then Runs(done.actions) else [];
    if made.Err? {
      return Err(made.error);
    }
    return Ok(made.value.comment);
  }

  lemma PostDoneMeaning(t: Tables, input: NewPostInput, id: Uuid, now: Time, faults: Faults)
    ensures var d := PostDone(t, input, id, now, faults);
      && (d.outcome.Ok? <==> !faults.write && NewPost(id, input.authorID, input.title, input.content, now).Ok?)
      && (d.outcome.Ok? ==>
            && d.outcome.value == Post(id, input.authorID, input.title, input.content, true, now)
            && d.tables == t.(posts := t.posts[id := d.outcome.value]))
      && (d.outcome.Err? ==> d.tables == t) && d.actions == []
  {
  }

  method CreatePost(db: Database, input: NewPostInput, id: Uuid, now: Time, faults: Faults)
    returns (r: Result<Post, Error>)
    modifies db, db.rows
    ensures PublishesIn(db.history) == PublishesIn(old(db.history))
    ensures r.Ok? <==>
      !faults.begin && !faults.write && !faults.commit
      && NewPost(id, input.authorID, input.title, input.content, now).Ok?
    ensures r.Ok? ==>
      && r.value == Post(id, input.authorID, input.title, input.content, true, now)
      && db.rows.tables == old(db.rows.tables).(posts := old(db.rows.tables).posts[id := r.value])
    ensures r.Err? ==> db.rows.tables == old(db.rows.tables)
  {
    PostDoneMeaning(db.rows.tables, input, id, now, faults);
    TxPublishes(db.history, []);
    var made := WithinTx(db, CreatePostOf(input, id, now), faults);
    if made.Err? {
      return Err(made.error);
    }
    return Ok(made.value.post);
  }

  // On the memory backend, which rolls nothing back, an error still leaves every row as it was.
  method CreatePostInMemory(db: Database, input: NewPostInput, id: Uuid, now: Time) returns (r: Result<Post, Error>)
    modifies db, db.rows
    ensures PublishesIn(db.history) == PublishesIn(old(db.history))
    ensures r.Ok? <==> NewPost(id, input.authorID, input.title, input.content, now).Ok?
    ensures r.Ok? ==>
      && r.value == Post(id, input.authorID, input.title, input.content, true, now)
      && db.rows.tables == old(db.rows.tables).(posts := old(db.rows.tables).posts[id := r.value])
    ensures r.Err? ==> db.rows.tables == old(db.rows.tables)
  {
    PostDoneMeaning(db.rows.tables, input, id, now, NO_FAULTS);
    TxPublishes(db.history, []);
    var made := WithinTxInMemory(db, CreatePostOf(input, id, now));
    if made.Err? {
      return Err(made.error);
    }
    return Ok(made.value.post);
  }

  // The post is there and the actor is its author.
  predicate MaySetFlag(t: Tables, input: FlagInput)
  {
    input.postID in t.posts && t.posts[input.postID].authorID == input.actorID
  }

  // The tables with the flag of one post as asked for.
  function WithFlag(t: Tables, input: FlagInput): Tables
    requires input.postID in t.posts
  {
    t.(posts := t.posts[input.postID := t.posts[input.postID].(commentsEnabled := input.enabled)])
  }

  lemma FlagDoneMeaning(t: Tables, input: FlagInput, faults: Faults)
    requires forall id :: id in t.posts ==> t.posts[id].id == id
    ensures var d := FlagDone(t, input, faults);
      && (d.outcome.Ok? <==> !faults.readPost && !faults.write && MaySetFlag(t, input))
      && (d.outcome.Ok? ==> d.tables == WithFlag(t, input) && d.outcome.value == d.tables.posts[input.postID])
      && (d.outcome.Err? ==> d.tables == t) && d.actions == []
  {
  }

  method SetCommentsEnabled(db: Database, input: FlagInput, faults: Faults) returns (r: Result<Post, Error>)
    requires forall id :: id in db.rows.tables.posts ==> db.rows.tables.posts[id].id == id
    modifies db, db.rows
    ensures PublishesIn(db.history) == PublishesIn(old(db.history))
    ensures r.Ok? <==>
      !faults.begin && !faults.readPost && !faults.write && !faults.commit && MaySetFlag(old(db.rows.tables), input)
    ensures r.Ok? ==>
      db.rows.tables == WithFlag(old(db.rows.tables), input) && r.value == db.rows.tables.posts[input.postID]
    ensures r.Err? ==> db.rows.tables == old(db.rows.tables)
  {
    FlagDoneMeaning(db.rows.tables, input, faults);
    TxPublishes(db.history, []);
    var made := WithinTx(db, SetFlagOf(input), faults);
    if made.Err? {
      return Err(made.error);
    }
    return Ok(made.value.post);
  }

  method SetCommentsEnabledInMemory(db: Database, input: FlagInput) returns (r: Result<Post, Error>)
    requires forall id :: id in db.rows.tables.posts ==> db.rows.tables.posts[id].id == id
    modifies db, db.rows
    ensures PublishesIn(db.history) == PublishesIn(old(db.history))
    ensures r.Ok? <==> MaySetFlag(old(db.rows.tables), input)
    ensures r.Ok? ==>
      db.rows.tables == WithFlag(old(db.rows.tables), input) && r.value == db.rows.tables.posts[input.postID]
    ensures r.Err? ==> db.rows.tables == old(db.rows.tables)
  {
    FlagDoneMeaning(db.rows.tables, input, NO_FAULTS);
    TxPublishes(db.history, []);
    var made := WithinTxInMemory(db, SetFlagOf(input));
    if made.Err? {
      return Err(made.error);
    }
    return Ok(made.value.post);
  }
}

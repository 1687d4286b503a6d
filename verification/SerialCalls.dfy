/** The two descriptions of a service call agree: interleaved repository calls, when nothing else runs in between, do
    what the function given to WithinTx does. */
module SerialCalls {
  import opened Wrappers
  import opened Uuids
  import opened Domain
  import EventBus
  import I = Interleaving
  import T = Transactions

  // The next repository call of call k, if it has one.
  function Step(s: I.Sys, k: nat, id: Uuid, now: Time): (r: I.Sys)
    requires k in s.calls
    ensures k in r.calls && r.calls[k].request == s.calls[k].request
  {
    match I.Outcome(s, k, id, now)
    case None => s
    case Some(e) => I.Apply(s, k, e)
  }

  // No call takes more than four steps: three repository calls and its return.
  function Alone(s: I.Sys, k: nat, id: Uuid, now: Time): (r: I.Sys)
    requires k in s.calls
    ensures k in r.calls
  {
    Step(Step(Step(Step(s, k, id, now), k, id, now), k, id, now), k, id, now)
  }

  function TablesOf(s: I.Sys): T.Tables { T.Tables(s.posts, s.comments) }

  function PostInput(r: I.Request): T.NewPostInput
    requires r.CreatePost?
  {
    T.NewPostInput(r.authorID, r.title, r.content)
  }

  function FlagInput(r: I.Request): T.FlagInput
    requires r.SetCommentsEnabled?
  {
    T.FlagInput(r.postID, r.actorID, r.enabled)
  }

  function CommentInput(r: I.Request): T.NewCommentInput
    requires r.CreateComment?
  {
    T.NewCommentInput(r.postID, r.parentID, r.authorID, r.body)
  }

  // Call k has left the rows of done and failed exactly as it does, and nobody else has noticed anything.
  predicate EndsAs<X>(s: I.Sys, s': I.Sys, k: nat, done: T.Done<X>)
  {
    && k in s'.calls && TablesOf(s') == done.tables && s'.net == s.net && s'.publisher == s.publisher
    && s'.calls == s.calls[k := s'.calls[k]]
    && (done.outcome.Err? <==> s'.calls[k].phase.Failed?)
    && (done.outcome.Err? ==> s'.calls[k].phase.error == done.outcome.error)
  }

  // ... and has returned the same post.
  predicate ReturnsPost(s: I.Sys, s': I.Sys, k: nat, done: T.Done<Post>)
  {
    EndsAs(s, s', k, done) && (done.outcome.Ok? ==> s'.calls[k].phase == I.Succeeded(done.outcome.value))
  }

  // A call that is over, or waits for its publish, makes no repository call.
  lemma Rests(s: I.Sys, k: nat, id: Uuid, now: Time)
    requires k in s.calls
    requires var p := s.calls[k].phase;
      p.Failed? || p.Succeeded? || p.Created? || (p.Stored? && s.publisher && s.calls[k].registered)
    ensures Step(s, k, id, now) == s
  {
  }

  lemma Moves(s: I.Sys, k: nat, id: Uuid, now: Time, e: I.Effect)
    requires k in s.calls && I.Outcome(s, k, id, now) == Some(e)
    ensures Step(s, k, id, now) == I.Apply(s, k, e)
  {
  }

  lemma CreatePostAlone(s: I.Sys, k: nat, id: Uuid, now: Time)
    requires k in s.calls && s.calls[k].request.CreatePost? && s.calls[k].phase.Begun?
    ensures ReturnsPost(
      s, Alone(s, k, id, now), k, T.PostDone(TablesOf(s), PostInput(s.calls[k].request), id, now, T.NO_FAULTS))
  {
    var r := s.calls[k].request;
    var s1 := Step(s, k, id, now);
    Moves(s, k, id, now, I.CreatePostEffect(NewPost(id, r.authorID, r.title, r.content, now)));
    Rests(s1, k, id, now);
  }

  // Only call k has moved on; nothing is written yet.
  predicate OnlyMoved(s: I.Sys, s': I.Sys, k: nat)
    requires k in s.calls
  {
    && k in s'.calls && s'.calls[k].request == s.calls[k].request && s'.calls[k].registered == s.calls[k].registered
    && s' == s.(calls := s.calls[k := s'.calls[k]])
  }

  predicate Refused(s: I.Sys, s': I.Sys, k: nat, e: Error)
    requires k in s.calls
  {
    OnlyMoved(s, s', k) && s'.calls[k].phase == I.Failed(e)
  }

  function FlagDone(s: I.Sys, k: nat): T.Done<Post>
    requires k in s.calls && s.calls[k].request.SetCommentsEnabled?
  {
    T.FlagDone(TablesOf(s), FlagInput(s.calls[k].request), T.NO_FAULTS)
  }

  // Why SetCommentsEnabled refuses, if it does.
  function FlagRefusal(s: I.Sys, r: I.Request): Option<Error>
    requires r.SetCommentsEnabled?
  {
    if r.postID !in s.posts then Some(NotFound("post", Text(r.postID)))
    else if s.posts[r.postID].authorID != r.actorID then Some(Forbidden("set comments availability", "post"))
    else None
  }

  lemma FlagRefusalIs(s: I.Sys, k: nat)
    requires k in s.calls && s.calls[k].request.SetCommentsEnabled?
    requires FlagRefusal(s, s.calls[k].request).Some?
    ensures FlagDone(s, k) == T.Done(TablesOf(s), [], Err(FlagRefusal(s, s.calls[k].request).value))
  {
  }

  // SetCommentsEnabled reads the post and changes its copy, or fails as its function does.
  lemma ReadAgrees(s: I.Sys, k: nat, id: Uuid, now: Time)
    requires k in s.calls && s.calls[k].request.SetCommentsEnabled? && s.calls[k].phase.Begun?
    ensures var r, t := s.calls[k].request, Step(s, k, id, now);
      if t.calls[k].phase.Failed? then FlagDone(s, k).outcome.Err? && Refused(s, t, k, FlagDone(s, k).outcome.error)
      else
        && OnlyMoved(s, t, k) && r.postID in s.posts && s.posts[r.postID].authorID == r.actorID
        && t.calls[k].phase == I.PostChanged(s.posts[r.postID].(commentsEnabled := r.enabled))
  {
    var r := s.calls[k].request;
    Moves(s, k, id, now, I.ReadPostEffect(s, r.postID, r.actorID, r.enabled));
    if FlagRefusal(s, r).Some? { FlagRefusalIs(s, k); }
  }

  lemma FlagDoneIs(s: I.Sys, k: nat, p: Post)
    requires k in s.calls && s.calls[k].request.SetCommentsEnabled?
    requires var r := s.calls[k].request;
      && r.postID in s.posts && s.posts[r.postID].authorID == r.actorID
      && p == s.posts[r.postID].(commentsEnabled := r.enabled)
    ensures FlagDone(s, k) ==
      if p.id in s.posts then T.Done(T.Tables(s.posts[p.id := p], s.comments), [], Ok(p))
      else T.Done(TablesOf(s), [], Err(NotFound("post", Text(p.id))))
  {
  }

  // It writes the copy back.
  lemma WriteAgrees(s: I.Sys, t: I.Sys, k: nat, id: Uuid, now: Time)
    requires k in s.calls && s.calls[k].request.SetCommentsEnabled? && OnlyMoved(s, t, k)
    requires var r := s.calls[k].request;
      && r.postID in s.posts && s.posts[r.postID].authorID == r.actorID
      && t.calls[k].phase == I.PostChanged(s.posts[r.postID].(commentsEnabled := r.enabled))
    ensures ReturnsPost(s, Step(t, k, id, now), k, FlagDone(s, k))
    ensures var p := Step(t, k, id, now).calls[k].phase; p.Failed? || p.Succeeded?
  {
    FlagDoneIs(s, k, t.calls[k].phase.post);
    Moves(t, k, id, now, I.UpdatePostEffect(t, t.calls[k].phase.post));
  }

  lemma SetCommentsEnabledAlone(s: I.Sys, k: nat, id: Uuid, now: Time)
    requires k in s.calls && s.calls[k].request.SetCommentsEnabled? && s.calls[k].phase.Begun?
    ensures ReturnsPost(s, Alone(s, k, id, now), k, FlagDone(s, k))
  {
    var s1 := Step(s, k, id, now);
    ReadAgrees(s, k, id, now);
    if s1.calls[k].phase.Failed? {
      Rests(s1, k, id, now);
    } else {
      WriteAgrees(s, s1, k, id, now);
      Rests(Step(s1, k, id, now), k, id, now);
    }
  }

  function CommentDone(s: I.Sys, k: nat, id: Uuid, now: Time): T.Done<Comment>
    requires k in s.calls && s.calls[k].request.CreateComment?
  {
    T.CommentDone(
      TablesOf(s), CommentInput(s.calls[k].request), id, now, s.publisher, s.calls[k].registered, T.NO_FAULTS)
  }

  function RefusalOf(s: I.Sys, k: nat): Option<Error>
    requires k in s.calls && s.calls[k].request.CreateComment?
  {
    T.Refusal(TablesOf(s), CommentInput(s.calls[k].request), T.NO_FAULTS)
  }

  function PostRefusal(s: I.Sys, postID: PostID): Option<Error>
  {
    if postID !in s.posts then Some(NotFound("post", Text(postID)))
    else if !s.posts[postID].commentsEnabled then Some(Conflict("post", "comments are disabled"))
    else None
  }

  lemma PostCheckAgrees(s: I.Sys, k: nat, id: Uuid, now: Time)
    requires k in s.calls && s.calls[k].request.CreateComment? && s.calls[k].phase.Begun?
    ensures var r, t := s.calls[k].request, Step(s, k, id, now);
      && OnlyMoved(s, t, k)
      && t.calls[k].phase ==
           if PostRefusal(s, r.postID).Some? then I.Failed(PostRefusal(s, r.postID).value)
           else if r.parentID.Some? then I.PostRead
           else I.ParentRead
  {
    Moves(s, k, id, now, I.CheckPostEffect(s, s.calls[k].request.postID, s.calls[k].request.parentID));
  }

  // The checks of CreateComment: refused as its function refuses, or all passed.
  lemma ChecksAgree(s: I.Sys, k: nat, id: Uuid, now: Time)
    requires k in s.calls && s.calls[k].request.CreateComment? && s.calls[k].phase.Begun?
    ensures var t := if s.calls[k].request.parentID.Some?
      then Step(Step(s, k, id, now), k, id, now) else Step(s, k, id, now);
      && OnlyMoved(s, t, k)
      && t.calls[k].phase == if RefusalOf(s, k).Some? then I.Failed(RefusalOf(s, k).value) else I.ParentRead
  {
    var r := s.calls[k].request;
    var s1 := Step(s, k, id, now);
    PostCheckAgrees(s, k, id, now);
    if r.parentID.Some? {
      if s1.calls[k].phase.Failed? {
        Rests(s1, k, id, now);
      } else {
        Moves(s1, k, id, now, I.CheckParentEffect(s1, r.postID, r.parentID.value));
      }
    }
  }

  // The comment of call k has been written, or its input refused.
  predicate Inserted(s: I.Sys, s': I.Sys, k: nat, made: Result<Comment, Error>)
    requires k in s.calls
  {
    if made.Err? then Refused(s, s', k, made.error)
    else
      && k in s'.calls && s'.calls == s.calls[k := s'.calls[k]] && s'.calls[k].phase == I.Stored(made.value)
      && s'.calls[k].request == s.calls[k].request && s'.calls[k].registered == s.calls[k].registered
      && s'.posts == s.posts && s'.comments == s.comments[made.value.id := made.value]
      && s'.net == s.net && s'.publisher == s.publisher
  }

  function MadeBy(r: I.Request, id: Uuid, now: Time): Result<Comment, Error>
    requires r.CreateComment?
  {
    NewComment(id, r.postID, r.parentID, r.authorID, r.body, now)
  }

  // The insert of CreateComment, once its checks have passed.
  lemma InsertAgrees(s: I.Sys, t: I.Sys, k: nat, id: Uuid, now: Time)
    requires k in s.calls && s.calls[k].request.CreateComment? && OnlyMoved(s, t, k) && t.calls[k].phase.ParentRead?
    ensures Inserted(s, Step(t, k, id, now), k, MadeBy(s.calls[k].request, id, now))
  {
    var r := s.calls[k].request;
    Moves(t, k, id, now, I.InsertEffect(NewComment(id, r.postID, r.parentID, r.authorID, r.body, now)));
  }

  // The call has ended as its function does, or only its publish and return are left; the comment is the one returned.
  predicate Agrees(s: I.Sys, s': I.Sys, k: nat, done: T.Done<Comment>)
  {
    && EndsAs(s, s', k, done)
    && (done.outcome.Ok? ==>
          s'.calls[k].phase == if s.publisher then I.Stored(done.outcome.value) else I.Created(done.outcome.value))
    && (s'.calls[k].phase.Stored? ==> s'.calls[k].registered)
  }

  // The registration, and the return when there is nothing to publish.
  lemma FinishAgrees(s: I.Sys, t: I.Sys, k: nat, id: Uuid, now: Time)
    requires k in s.calls && s.calls[k].request.CreateComment? && RefusalOf(s, k).None?
    requires Inserted(s, t, k, MadeBy(s.calls[k].request, id, now))
    ensures Agrees(s, Step(t, k, id, now), k, CommentDone(s, k, id, now))
  {
    if t.calls[k].phase.Failed? || (s.publisher && s.calls[k].registered) {
      Rests(t, k, id, now);
    } else {
      var c := t.calls[k].phase.comment;
      Moves(t, k, id, now, I.Move(if s.publisher then I.Failed(MissingRegistry) else I.Created(c)));
    }
  }

  lemma StillAgrees(s: I.Sys, t: I.Sys, k: nat, id: Uuid, now: Time, done: T.Done<Comment>)
    requires Agrees(s, t, k, done) && k in t.calls
    ensures Agrees(s, Step(t, k, id, now), k, done)
  {
    Rests(t, k, id, now);
  }

  lemma RefusedAgrees(s: I.Sys, t: I.Sys, k: nat, id: Uuid, now: Time)
    requires k in s.calls && s.calls[k].request.CreateComment?
    requires RefusalOf(s, k).Some? && Refused(s, t, k, RefusalOf(s, k).value)
    ensures Agrees(s, t, k, CommentDone(s, k, id, now))
  {
  }

  /** A CreateComment call that nothing interrupts leaves the rows and the result of the function given to WithinTx, the
      failure after the write included, should its context hold no registry. */
  lemma CreateCommentAlone(s: I.Sys, k: nat, id: Uuid, now: Time)
    requires k in s.calls && s.calls[k].request.CreateComment? && s.calls[k].phase.Begun?
    ensures Agrees(s, Alone(s, k, id, now), k, CommentDone(s, k, id, now))
  {
    var done := CommentDone(s, k, id, now);
    ChecksAgree(s, k, id, now);
    var s1 := Step(s, k, id, now);
    var t := if s.calls[k].request.parentID.Some? then Step(s1, k, id, now) else s1;
    var u := Step(t, k, id, now);
    if RefusalOf(s, k).None? {
      InsertAgrees(s, t, k, id, now);
      FinishAgrees(s, u, k, id, now);
    } else {
      RefusedAgrees(s, t, k, id, now);
      StillAgrees(s, t, k, id, now, done);
      StillAgrees(s, u, k, id, now, done);
    }
    if t == s1 { StillAgrees(s, Step(u, k, id, now), k, id, now, done); }
  }

  /** What it then publishes is the action that the function has registered, its only one; and when its sends are done,
      it returns the function's comment. */
  lemma PublishesTheAction(
    s: I.Sys, k: nat, id: Uuid, now: Time, targets: seq<EventBus.ChanRef>, s': I.Sys, sent: I.Sys)
    requires k in s.calls && s.calls[k].request.CreateComment? && s.calls[k].phase.Begun? && s.publisher
    requires I.PublishNext(Alone(s, k, id, now), k, targets, s')
    requires k in sent.calls && sent.calls[k] == s'.calls[k] && k in sent.net.pubs && sent.net.pubs[k].targets == []
    ensures var done := CommentDone(s, k, id, now);
      && done.outcome.Ok? && k in s'.net.pubs && done.actions == [T.Publish(s'.net.pubs[k].event)]
      && Step(sent, k, id, now).calls[k].phase == I.Created(done.outcome.value)
  {
    CreateCommentAlone(s, k, id, now);
    var t := Alone(s, k, id, now);
    I.PublishFacts(t, k, targets, s');
    ActionOfStored(s, t, k, id, now);
    ReturnsStored(sent, k, id, now);
  }

  // A call that is about to publish has done what its function does, and its comment is the registered action's.
  lemma ActionOfStored(s: I.Sys, t: I.Sys, k: nat, id: Uuid, now: Time)
    requires k in s.calls && s.calls[k].request.CreateComment? && s.publisher
    requires Agrees(s, t, k, CommentDone(s, k, id, now)) && k in t.calls && t.calls[k].phase.Stored?
    ensures var done := CommentDone(s, k, id, now);
      && done.outcome == Ok(t.calls[k].phase.comment)
      && done.actions == [T.Publish(I.EventOf(t.calls[k].phase.comment))]
  {
  }

  lemma ReturnsStored(s: I.Sys, k: nat, id: Uuid, now: Time)
    requires k in s.calls && s.calls[k].request.CreateComment? && s.calls[k].phase.Publishing?
    requires k in s.net.pubs && s.net.pubs[k].targets == []
    ensures Step(s, k, id, now).calls[k].phase == I.Created(s.calls[k].phase.comment)
  {
    Moves(s, k, id, now, I.Move(I.Created(s.calls[k].phase.comment)));
  }
}

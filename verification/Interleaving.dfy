/** The services on the memory backend, any number of calls at once. The store locks each repository call, not a whole
    transaction, and never rolls back, so calls interleave between repository calls; subscribers, the bus and the
    sends of earlier publishes run in between too. A publish that panics ends its own call only. */
module Interleaving {
  import opened Wrappers
  import opened Uuids
  import opened Domain
  import opened CommentSets
  import opened CommentForest
  import EventBus
  import MemoryBus

  datatype Request =
    | CreatePost(authorID: UserID, title: string, content: string)
    | SetCommentsEnabled(postID: PostID, actorID: UserID, enabled: bool)
    | CreateComment(postID: PostID, parentID: Option<CommentID>, authorID: UserID, body: string)

  // How far a call has come; its next repository call or publish is still to do.
  datatype Phase =
    | Begun
    | PostChanged(post: Post)       // SetCommentsEnabled: read, changed locally, not written
    | PostRead                      // CreateComment with a parent: the post was there and enabled
    | ParentRead                    // CreateComment: all checks passed
    | Stored(comment: Comment)      // written, body done; the after-commit action is next
    | Publishing(comment: Comment)  // PublishCommentAdded has taken its targets; a call whose send panicked stays here
    | Succeeded(post: Post)         // CreatePost or SetCommentsEnabled returned the post
    | Created(comment: Comment)     // CreateComment returned the comment
    | Failed(error: Error)

  // registered: the call's context holds an after-commit registry. wrote is history: whether it has written to the
  // store.
  datatype Call = Call(request: Request, phase: Phase, registered: bool, wrote: bool)

  /** creator is history: the call that wrote each comment. In net, publish calls go by the number of the service call
      that makes them. publisher: the comments service was given one. */
  datatype Sys = Sys(
    posts: map<PostID, Post>, comments: Comments, calls: map<nat, Call>, creator: map<CommentID, nat>,
    publisher: bool, net: MemoryBus.Sys)

  datatype Label =
    | Begin(k: nat, request: Request)
    | Advance(k: nat, id: Uuid, now: Time)                  // the next repository call of call k, or its return
    | Publish(k: nat, targets: seq<EventBus.ChanRef>)       // the after-commit action of call k takes its targets
    | Net(l: MemoryBus.Label)                               // a send, a receive, a subscriber coming or going, Close

  function EventOf(c: Comment): EventBus.Event { EventBus.CommentAdded(c.postID, c.id, c.authorID) }

  // newID is fresh and not nil.
  predicate Fresh(s: Sys, id: Uuid) { id != NIL && id !in s.posts && id !in s.comments }

  // What one repository call and the code around it do: the call moves on, having written nothing, a post or a comment.
  datatype Effect = Move(phase: Phase) | PutPost(post: Post) | PutComment(comment: Comment)

  function Apply(s: Sys, k: nat, e: Effect): Sys
    requires k in s.calls
  {
    match e
    case Move(phase) => s.(calls := s.calls[k := s.calls[k].(phase := phase)])
    case PutPost(p) =>
      s.(calls := s.calls[k := s.calls[k].(phase := Succeeded(p), wrote := true)], posts := s.posts[p.id := p])
    case PutComment(c) =>
      s.(calls := s.calls[k := s.calls[k].(phase := Stored(c), wrote := true)],
         comments := s.comments[c.id := c], creator := s.creator[c.id := k])
  }

  // The next repository call of call k, if it has one to do: None while it waits for its publish.
  function Outcome(s: Sys, k: nat, id: Uuid, now: Time): Option<Effect>
    requires k in s.calls
  {
    var call := s.calls[k];
    match call.request
    case CreatePost(authorID, title, content) =>
      if call.phase.Begun? then Some(CreatePostEffect(NewPost(id, authorID, title, content, now))) else None
    case SetCommentsEnabled(postID, actorID, enabled) =>
      if call.phase.Begun? then Some(ReadPostEffect(s, postID, actorID, enabled))
      else if call.phase.PostChanged? then Some(UpdatePostEffect(s, call.phase.post))
      else None
    case CreateComment(postID, parentID, authorID, body) =>
      if call.phase.Begun? then Some(CheckPostEffect(s, postID, parentID))
      else if call.phase.PostRead? && parentID.Some? then Some(CheckParentEffect(s, postID, parentID.value))
      else if call.phase.ParentRead? then Some(InsertEffect(NewComment(id, postID, parentID, authorID, body, now)))
      else if call.phase.Stored? && !s.publisher then Some(Move(Created(call.phase.comment)))
      else if call.phase.Stored? && !call.registered then Some(Move(Failed(MissingRegistry)))
      else if call.phase.Publishing? && k in s.net.pubs && s.net.pubs[k].targets == [] then
        Some(Move(Created(call.phase.comment)))
      else None
  }

  function CreatePostEffect(post: Result<Post, Error>): Effect
  {
    match post
    case Err(e) => Move(Failed(e))
    case Ok(p) => PutPost(p)
  }

  function ReadPostEffect(s: Sys, postID: PostID, actorID: UserID, enabled: bool): Effect
  {
    if postID !in s.posts then Move(Failed(NotFound("post", Text(postID))))
    else match s.posts[postID].SetCommentsEnabled(actorID, enabled)
      case Err(e) => Move(Failed(e))
      case Ok(p) => Move(PostChanged(p))
  }

  // The whole row is written back as it was read, with the flag changed.
  function UpdatePostEffect(s: Sys, post: Post): Effect
  {
    if post.id !in s.posts then Move(Failed(NotFound("post", Text(post.id)))) else PutPost(post)
  }

  function CheckPostEffect(s: Sys, postID: PostID, parentID: Option<CommentID>): Effect
  {
    if postID !in s.posts then Move(Failed(NotFound("post", Text(postID))))
    else if !s.posts[postID].commentsEnabled then Move(Failed(Conflict("post", "comments are disabled")))
    else Move(if parentID.Some? then PostRead else ParentRead)
  }

  function CheckParentEffect(s: Sys, postID: PostID, parentID: CommentID): Effect
  {
    if parentID !in s.comments then Move(Failed(NotFound("comment", Text(parentID))))
    else if s.comments[parentID].postID != postID then
      Move(Failed(Conflict("comment", "parent comment belongs to a different post")))
    else Move(ParentRead)
  }

  function InsertEffect(comment: Result<Comment, Error>): Effect
  {
    match comment
    case Err(e) => Move(Failed(e))
    case Ok(c) => PutComment(c)
  }

  ghost predicate Next(s: Sys, l: Label, s': Sys)
  {
    match l
    // Every call runs inside WithinTx, which puts a new registry into its context.
    case Begin(k, request) => k !in s.calls && s' == s.(calls := s.calls[k := Call(request, Begun, true, false)])
    case Advance(k, id, now) =>
      k in s.calls && Fresh(s, id) && Outcome(s, k, id, now).Some? && s' == Apply(s, k, Outcome(s, k, id, now).value)
    case Publish(k, targets) => PublishNext(s, k, targets, s')
    case Net(m) => !m.Snapshot? && MemoryBus.Next(s.net, m, s'.net) && s' == s.(net := s'.net)
  }

  ghost predicate PublishNext(s: Sys, k: nat, targets: seq<EventBus.ChanRef>, s': Sys)
  {
    && k in s.calls && s.calls[k].phase.Stored? && s.publisher && s.calls[k].registered
    && MemoryBus.Next(s.net, MemoryBus.Snapshot(k, EventOf(s.calls[k].phase.comment), targets), s'.net)
    && s' == Apply(s, k, Move(Publishing(s.calls[k].phase.comment))).(net := s'.net)
  }

  ghost predicate Initial(s: Sys)
  {
    && s.posts == map[] && s.comments == map[] && s.calls == map[] && s.creator == map[]
    && MemoryBus.Initial(s.net)
  }

  ghost predicate IsRun(states: seq<Sys>, labels: seq<Label>)
  {
    && |states| == |labels| + 1
    && Initial(states[0])
    && forall i {:trigger labels[i]} :: 0 <= i < |labels| ==> Next(states[i], labels[i], states[i + 1])
  }

  // The comment that a call has written.
  function Written(call: Call): Option<Comment>
  {
    if call.phase.Stored? || call.phase.Publishing? || call.phase.Created? then Some(call.phase.comment) else None
  }

  predicate HasParent(s: Sys, postID: PostID, parentID: Option<CommentID>)
  {
    parentID.Some? ==> parentID.value in s.comments && s.comments[parentID.value].postID == postID
  }

  // What a call knows stays true while others run: posts and comments never go away, and only the flag changes.
  ghost predicate CallHolds(s: Sys, k: nat, call: Call)
  {
    && call.registered
    && (call.wrote <==> call.phase.Succeeded? || Written(call).Some?)
    && (call.phase.PostChanged? ==>
          && call.request.SetCommentsEnabled?
          && call.request.postID in s.posts && call.phase.post.id == call.request.postID
          && call.phase.post.SameButFlag(s.posts[call.request.postID])
          && call.phase.post.authorID == call.request.actorID
          && call.phase.post.commentsEnabled == call.request.enabled)
    && (call.phase.PostRead? || call.phase.ParentRead? ==>
         call.request.CreateComment? && call.request.postID in s.posts)
    && (call.phase.ParentRead? ==> HasParent(s, call.request.postID, call.request.parentID))
    && (Written(call).Some? ==>
          && call.request.CreateComment?
          && Written(call).value.id in s.comments && s.comments[Written(call).value.id] == Written(call).value
          && Written(call).value.id in s.creator && s.creator[Written(call).value.id] == k)
  }

  predicate HasPublished(s: Sys, phase: Phase) { s.publisher && (phase.Publishing? || phase.Created?) }

  // Exactly the calls that have stored a comment and gone on with a publisher have published, each its own comment.
  ghost predicate PublishesHold(s: Sys)
  {
    && (forall k :: k in s.net.pubs <==> k in s.calls && HasPublished(s, s.calls[k].phase))
    && (forall k :: k in s.net.pubs ==> s.net.pubs[k].event == EventOf(s.calls[k].phase.comment))
  }

  ghost predicate CreatorsHold(s: Sys)
  {
    && s.creator.Keys == s.comments.Keys
    && forall id :: id in s.creator ==>
         s.creator[id] in s.calls && Written(s.calls[s.creator[id]]) == Some(s.comments[id])
  }

  // The event is about a stored comment of its post.
  predicate About(comments: Comments, e: EventBus.Event)
  {
    e.commentID in comments && EventOf(comments[e.commentID]) == e
  }

  ghost predicate ChanAbout(comments: Comments, ch: EventBus.Chan)
  {
    forall e :: e in ch.buffer + ch.received ==> About(comments, e)
  }

  ghost predicate EventsStored(comments: Comments, net: MemoryBus.Sys)
  {
    && (forall k :: k in net.pubs ==> About(comments, net.pubs[k].event))
    && (forall c :: 0 <= c < |net.bus.chans| ==> ChanAbout(comments, net.bus.chans[c]))
  }

  ghost predicate StoreHolds(s: Sys) { RowsHold(s.posts, s.comments) }

  ghost predicate RowsHold(posts: map<PostID, Post>, comments: Comments)
  {
    && Keyed(comments) && Forest(posts.Keys, comments)
    && (forall id :: id in posts ==> posts[id].id == id && posts[id].createdAt != 0)
    && (forall id :: id in comments ==> comments[id].createdAt != 0)
  }

  ghost predicate CallsHold(s: Sys) { forall k :: k in s.calls ==> CallHolds(s, k, s.calls[k]) }

  // The services' part of the invariant.
  ghost predicate ServiceInv(s: Sys) { StoreHolds(s) && CreatorsHold(s) && CallsHold(s) && PublishesHold(s) }

  ghost predicate Inv(s: Sys) { ServiceInv(s) && EventsStored(s.comments, s.net) && MemoryBus.Inv(s.net) }

  // Nothing stored goes away; comments and posts do not change, but for a post's flag.
  predicate Grows(s: Sys, s': Sys)
  {
    && (forall id :: id in s.comments ==> id in s'.comments && s'.comments[id] == s.comments[id])
    && (forall id :: id in s.posts ==> id in s'.posts && s'.posts[id].SameButFlag(s.posts[id]))
  }

  // The write of a post is a new post, or the flag of a post set by its author's call.
  predicate PostWriteHolds(s: Sys, request: Request, p: Post)
  {
    if p.id in s.posts
    then p.SameButFlag(s.posts[p.id]) && request == SetCommentsEnabled(p.id, s.posts[p.id].authorID, p.commentsEnabled)
    else request.CreatePost? && p.createdAt != 0
  }

  // What is true of every effect that a call can have.
  ghost predicate EffectHolds(s: Sys, k: nat, e: Effect)
    requires k in s.calls
  {
    var call := s.calls[k];
    match e
    case Move(phase) =>
      && CallHolds(s, k, call.(phase := phase))
      && Written(call.(phase := phase)) == Written(call)
      && HasPublished(s, phase) == HasPublished(s, call.phase)
    case PutPost(p) => call.registered && Written(call) == None && PostWriteHolds(s, call.request, p)
    case PutComment(c) =>
      && call.registered && Written(call) == None && call.request.CreateComment?
      && c.id !in s.comments && c.postID in s.posts && HasParent(s, c.postID, c.parentID) && c.createdAt != 0
  }

  lemma InsertHolds(s: Sys, k: nat, id: Uuid, now: Time)
    requires k in s.calls && s.calls[k].request.CreateComment? && s.calls[k].phase.ParentRead?
    requires CallHolds(s, k, s.calls[k]) && id !in s.comments
    ensures var r := s.calls[k].request;
      EffectHolds(s, k, InsertEffect(NewComment(id, r.postID, r.parentID, r.authorID, r.body, now)))
  {
    var r := s.calls[k].request;
    var made := NewComment(id, r.postID, r.parentID, r.authorID, r.body, now);
    if made.Ok? { assert made.value == Comment(id, r.postID, r.parentID, r.authorID, r.body, now); }
  }

  lemma CreatePostHolds(s: Sys, k: nat, id: Uuid, now: Time)
    requires k in s.calls && s.calls[k].request.CreatePost? && s.calls[k].phase.Begun?
    requires CallHolds(s, k, s.calls[k]) && id !in s.posts
    ensures var r := s.calls[k].request;
      EffectHolds(s, k, CreatePostEffect(NewPost(id, r.authorID, r.title, r.content, now)))
  {
    var r := s.calls[k].request;
    var made := NewPost(id, r.authorID, r.title, r.content, now);
    if made.Ok? { assert made.value.id == id; }
  }

  lemma FlagHolds(s: Sys, k: nat)
    requires k in s.calls && s.calls[k].request.SetCommentsEnabled? && CallHolds(s, k, s.calls[k])
    requires forall id :: id in s.posts ==> s.posts[id].id == id
    ensures var r := s.calls[k].request;
      s.calls[k].phase.Begun? ==> EffectHolds(s, k, ReadPostEffect(s, r.postID, r.actorID, r.enabled))
    ensures s.calls[k].phase.PostChanged? ==> EffectHolds(s, k, UpdatePostEffect(s, s.calls[k].phase.post))
  {
  }

  lemma ChecksHold(s: Sys, k: nat)
    requires k in s.calls && s.calls[k].request.CreateComment? && CallHolds(s, k, s.calls[k])
    ensures var r := s.calls[k].request;
      s.calls[k].phase.Begun? ==> EffectHolds(s, k, CheckPostEffect(s, r.postID, r.parentID))
    ensures var r := s.calls[k].request;
      s.calls[k].phase.PostRead? && r.parentID.Some? ==>
        EffectHolds(s, k, CheckParentEffect(s, r.postID, r.parentID.value))
  {
  }

  lemma ReturnHolds(s: Sys, k: nat)
    requires k in s.calls && CallHolds(s, k, s.calls[k])
    requires (s.calls[k].phase.Stored? && !s.publisher) || s.calls[k].phase.Publishing?
    ensures EffectHolds(s, k, Move(Created(s.calls[k].phase.comment)))
  {
  }

  // Every call has a registry, so the one effect that fails after a write cannot happen.
  lemma CommentOutcomeHolds(s: Sys, k: nat, id: Uuid, now: Time)
    requires k in s.calls && s.calls[k].request.CreateComment? && CallHolds(s, k, s.calls[k])
    requires id !in s.comments && Outcome(s, k, id, now).Some?
    ensures EffectHolds(s, k, Outcome(s, k, id, now).value)
  {
    match s.calls[k].phase
    case ParentRead => InsertHolds(s, k, id, now);
    case Stored(_) => ReturnHolds(s, k);
    case Publishing(_) => ReturnHolds(s, k);
    case _ => ChecksHold(s, k);
  }

  lemma OutcomeHolds(s: Sys, k: nat, id: Uuid, now: Time)
    requires k in s.calls && CallHolds(s, k, s.calls[k]) && id !in s.posts && id !in s.comments
    requires forall p :: p in s.posts ==> s.posts[p].id == p
    requires Outcome(s, k, id, now).Some?
    ensures EffectHolds(s, k, Outcome(s, k, id, now).value)
  {
    match s.calls[k].request
    case CreatePost(_, _, _) => CreatePostHolds(s, k, id, now);
    case SetCommentsEnabled(_, _, _) => FlagHolds(s, k);
    case CreateComment(_, _, _, _) => CommentOutcomeHolds(s, k, id, now);
  }

  lemma ApplyGrows(s: Sys, k: nat, e: Effect)
    requires k in s.calls && EffectHolds(s, k, e)
    ensures Grows(s, Apply(s, k, e))
  {
  }

  // What one call knows is not disturbed by the others.
  lemma Undisturbed(s: Sys, s': Sys, j: nat, call: Call)
    requires CallHolds(s, j, call) && Grows(s, s')
    requires forall id :: id in s.creator ==> id in s'.creator && s'.creator[id] == s.creator[id]
    ensures CallHolds(s', j, call)
  {
  }

  lemma OwnCall(s: Sys, k: nat, e: Effect)
    requires k in s.calls && EffectHolds(s, k, e) && Grows(s, Apply(s, k, e))
    requires s.creator.Keys == s.comments.Keys
    ensures CallHolds(Apply(s, k, e), k, Apply(s, k, e).calls[k])
  {
    if e.Move? { Undisturbed(s, Apply(s, k, e), k, s.calls[k].(phase := e.phase)); }
  }

  lemma OtherCall(s: Sys, k: nat, e: Effect, j: nat)
    requires k in s.calls && j in s.calls && j != k && CallHolds(s, j, s.calls[j])
    requires EffectHolds(s, k, e) && Grows(s, Apply(s, k, e)) && s.creator.Keys == s.comments.Keys
    ensures CallHolds(Apply(s, k, e), j, Apply(s, k, e).calls[j])
  {
    Undisturbed(s, Apply(s, k, e), j, s.calls[j]);
  }

  lemma ApplyCalls(s: Sys, k: nat, e: Effect)
    requires k in s.calls && CallsHold(s) && EffectHolds(s, k, e) && Grows(s, Apply(s, k, e))
    requires s.creator.Keys == s.comments.Keys
    ensures CallsHold(Apply(s, k, e))
  {
    forall j | j in Apply(s, k, e).calls ensures CallHolds(Apply(s, k, e), j, Apply(s, k, e).calls[j]) {
      if j == k { OwnCall(s, k, e); } else { OtherCall(s, k, e, j); }
    }
  }

  lemma MorePosts(posts: set<PostID>, more: set<PostID>, comments: Comments)
    requires Forest(posts, comments) && posts <= more
    ensures Forest(more, comments)
  {
  }

  lemma ApplyStore(s: Sys, k: nat, e: Effect)
    requires k in s.calls && StoreHolds(s) && EffectHolds(s, k, e)
    ensures StoreHolds(Apply(s, k, e))
  {
    match e
    case Move(_) =>
    case PutPost(p) => PostKeepsRows(s.posts, s.comments, p);
    case PutComment(c) => CommentKeepsRows(s.posts, s.comments, c);
  }

  lemma PostKeepsRows(posts: map<PostID, Post>, comments: Comments, p: Post)
    requires RowsHold(posts, comments) && p.createdAt != 0
    ensures RowsHold(posts[p.id := p], comments)
  {
    MorePosts(posts.Keys, posts.Keys + {p.id}, comments);
    assert posts[p.id := p].Keys == posts.Keys + {p.id};
  }

  lemma CommentKeepsRows(posts: map<PostID, Post>, comments: Comments, c: Comment)
    requires RowsHold(posts, comments) && c.id !in comments && c.postID in posts && c.createdAt != 0
    requires c.parentID.Some? ==> c.parentID.value in comments && comments[c.parentID.value].postID == c.postID
    ensures RowsHold(posts, comments[c.id := c])
  {
    AddKeepsForest(posts.Keys, comments, c);
  }

  lemma ApplyCreators(s: Sys, k: nat, e: Effect)
    requires k in s.calls && CreatorsHold(s) && EffectHolds(s, k, e)
    ensures CreatorsHold(Apply(s, k, e))
  {
  }

  lemma ApplyPublishes(s: Sys, k: nat, e: Effect)
    requires k in s.calls && PublishesHold(s) && EffectHolds(s, k, e)
    ensures PublishesHold(Apply(s, k, e))
  {
    var s' := Apply(s, k, e);
    assert HasPublished(s', s'.calls[k].phase) == HasPublished(s, s.calls[k].phase);
    if e.Move? && k in s.net.pubs { assert Written(s'.calls[k]) == Written(s.calls[k]); }
  }

  lemma ApplyService(s: Sys, k: nat, e: Effect)
    requires k in s.calls && ServiceInv(s) && EffectHolds(s, k, e)
    ensures ServiceInv(Apply(s, k, e)) && Grows(s, Apply(s, k, e))
  {
    ApplyGrows(s, k, e);
    ApplyStore(s, k, e);
    ApplyCreators(s, k, e);
    ApplyCalls(s, k, e);
    ApplyPublishes(s, k, e);
  }

  lemma BeginService(s: Sys, k: nat, request: Request)
    requires ServiceInv(s) && k !in s.calls
    ensures ServiceInv(s.(calls := s.calls[k := Call(request, Begun, true, false)]))
  {
    var s' := s.(calls := s.calls[k := Call(request, Begun, true, false)]);
    BegunCalls(s, k, request, s');
    assert StoreHolds(s');
    BegunPubs(s, k, request, s');
  }

  lemma BegunCalls(s: Sys, k: nat, request: Request, s': Sys)
    requires CallsHold(s) && CreatorsHold(s) && k !in s.calls
    requires s' == s.(calls := s.calls[k := Call(request, Begun, true, false)])
    ensures CallsHold(s') && CreatorsHold(s')
  {
    forall j | j in s'.calls ensures CallHolds(s', j, s'.calls[j]) {
      if j != k { Undisturbed(s, s', j, s.calls[j]); }
    }
  }

  lemma BegunPubs(s: Sys, k: nat, request: Request, s': Sys)
    requires PublishesHold(s) && k !in s.calls
    requires s' == s.(calls := s.calls[k := Call(request, Begun, true, false)])
    ensures PublishesHold(s')
  {
  }

  lemma PublishFacts(s: Sys, k: nat, targets: seq<EventBus.ChanRef>, s': Sys)
    requires PublishNext(s, k, targets, s')
    ensures s'.net.pubs == s.net.pubs[k := MemoryBus.Pending(EventOf(s.calls[k].phase.comment), targets, map[])]
    ensures s'.net.bus == s.net.bus && s'.comments == s.comments && Grows(s, s')
  {
    MemoryBus.SnapshotEffect(s.net, k, EventOf(s.calls[k].phase.comment), targets, s'.net);
  }

  lemma StoredAbout(s: Sys, k: nat)
    requires CallsHold(s) && k in s.calls && s.calls[k].phase.Stored?
    ensures About(s.comments, EventOf(s.calls[k].phase.comment))
  {
    assert CallHolds(s, k, s.calls[k]);
  }

  // Publishing changes the call's phase and enters its event, taken from the comment it stored, under its number.
  lemma PublishService(s: Sys, k: nat, targets: seq<EventBus.ChanRef>, s': Sys)
    requires ServiceInv(s) && PublishNext(s, k, targets, s')
    ensures ServiceInv(s') && Grows(s, s')
  {
    PublishFacts(s, k, targets, s');
    PublishKeeps(s, k, targets, s');
  }

  lemma PublishKeeps(s: Sys, k: nat, targets: seq<EventBus.ChanRef>, s': Sys)
    requires ServiceInv(s) && k in s.calls && s.calls[k].phase.Stored? && s.publisher
    requires s' == Apply(s, k, Move(Publishing(s.calls[k].phase.comment))).(net := s'.net)
    requires s'.net.pubs == s.net.pubs[k := MemoryBus.Pending(EventOf(s.calls[k].phase.comment), targets, map[])]
    ensures ServiceInv(s')
  {
    MovedCalls(s, k, Publishing(s.calls[k].phase.comment), s');
    assert StoreHolds(s');
    PublishedPubs(s, k, targets, s');
  }

  // A call that moves on with what it has written leaves every call's knowledge as it was.
  lemma MovedCalls(s: Sys, k: nat, phase: Phase, s': Sys)
    requires CallsHold(s) && CreatorsHold(s) && k in s.calls && Written(s.calls[k]).Some?
    requires Written(s.calls[k].(phase := phase)) == Written(s.calls[k])
    requires s' == Apply(s, k, Move(phase)).(net := s'.net)
    ensures CallsHold(s') && CreatorsHold(s')
  {
    assert CallHolds(s, k, s.calls[k]);
    assert CallHolds(s, k, s'.calls[k]);
    forall j | j in s'.calls ensures CallHolds(s', j, s'.calls[j]) {
      Undisturbed(s, s', j, s'.calls[j]);
    }
  }

  lemma PublishedPubs(s: Sys, k: nat, targets: seq<EventBus.ChanRef>, s': Sys)
    requires PublishesHold(s) && k in s.calls && s.calls[k].phase.Stored? && s.publisher
    requires s' == Apply(s, k, Move(Publishing(s.calls[k].phase.comment))).(net := s'.net)
    requires s'.net.pubs == s.net.pubs[k := MemoryBus.Pending(EventOf(s.calls[k].phase.comment), targets, map[])]
    ensures PublishesHold(s')
  {
  }

  // Steps of the bus leave the calls alone, and the publishes with their events.
  lemma SameService(s: Sys, s': Sys)
    requires ServiceInv(s) && s' == s.(net := s'.net) && s'.net.pubs.Keys == s.net.pubs.Keys
    requires forall k :: k in s.net.pubs ==> s'.net.pubs[k].event == s.net.pubs[k].event
    ensures ServiceInv(s') && Grows(s, s')
  {
    SameCalls(s, s');
    SamePubs(s, s');
    assert StoreHolds(s');
  }

  lemma SameCalls(s: Sys, s': Sys)
    requires CallsHold(s) && CreatorsHold(s) && s' == s.(net := s'.net)
    ensures CallsHold(s') && CreatorsHold(s')
  {
    forall j | j in s'.calls ensures CallHolds(s', j, s'.calls[j]) {
      Undisturbed(s, s', j, s.calls[j]);
    }
  }

  lemma SamePubs(s: Sys, s': Sys)
    requires PublishesHold(s) && s' == s.(net := s'.net) && s'.net.pubs.Keys == s.net.pubs.Keys
    requires forall k :: k in s.net.pubs ==> s'.net.pubs[k].event == s.net.pubs[k].event
    ensures PublishesHold(s')
  {
  }

  lemma NetService(s: Sys, m: MemoryBus.Label, s': Sys)
    requires ServiceInv(s) && !m.Snapshot? && MemoryBus.Next(s.net, m, s'.net) && s' == s.(net := s'.net)
    ensures ServiceInv(s') && Grows(s, s')
  {
    MemoryBus.PublishesKeepEvents(s.net, m, s'.net);
    SameService(s, s');
  }

  lemma StepService(s: Sys, l: Label, s': Sys)
    requires ServiceInv(s) && Next(s, l, s')
    ensures ServiceInv(s') && Grows(s, s')
  {
    match l
    case Begin(k, request) => BeginService(s, k, request);
    case Advance(k, id, now) =>
      OutcomeHolds(s, k, id, now);
      ApplyService(s, k, Outcome(s, k, id, now).value);
    case Publish(k, targets) => PublishService(s, k, targets, s');
    case Net(m) => NetService(s, m, s');
  }

  lemma EventsStayStored(comments: Comments, more: Comments, net: MemoryBus.Sys)
    requires EventsStored(comments, net)
    requires forall id :: id in comments ==> id in more && more[id] == comments[id]
    ensures EventsStored(more, net)
  {
    forall c | 0 <= c < |net.bus.chans| ensures ChanAbout(more, net.bus.chans[c]) {
      assert ChanAbout(comments, net.bus.chans[c]);
    }
  }

  lemma NetEvents(comments: Comments, net: MemoryBus.Sys, m: MemoryBus.Label, net': MemoryBus.Sys)
    requires EventsStored(comments, net) && MemoryBus.Inv(net) && MemoryBus.Next(net, m, net') && !m.Snapshot?
    ensures EventsStored(comments, net')
  {
    MemoryBus.PublishesKeepEvents(net, m, net');
    forall c, e | 0 <= c < |net'.bus.chans| && e in net'.bus.chans[c].buffer + net'.bus.chans[c].received
      ensures About(comments, e)
    {
      MemoryBus.EventsComeFromPublishes(net, m, net', c, e);
      if c < |net.bus.chans| { assert ChanAbout(comments, net.bus.chans[c]); }
    }
  }

  lemma OneMoreEvent(comments: Comments, net: MemoryBus.Sys, k: nat, p: MemoryBus.Pending, net': MemoryBus.Sys)
    requires EventsStored(comments, net) && About(comments, p.event)
    requires net'.pubs == net.pubs[k := p] && net'.bus == net.bus
    ensures EventsStored(comments, net')
  {
  }

  lemma PublishEvents(s: Sys, k: nat, targets: seq<EventBus.ChanRef>, s': Sys)
    requires CallsHold(s) && EventsStored(s.comments, s.net) && PublishNext(s, k, targets, s')
    ensures EventsStored(s'.comments, s'.net)
  {
    PublishFacts(s, k, targets, s');
    StoredAbout(s, k);
    OneMoreEvent(
      s.comments, s.net, k, MemoryBus.Pending(EventOf(s.calls[k].phase.comment), targets, map[]), s'.net);
  }

  lemma ApplyEvents(s: Sys, k: nat, e: Effect)
    requires Inv(s) && k in s.calls && Grows(s, Apply(s, k, e))
    ensures Apply(s, k, e).net == s.net && EventsStored(Apply(s, k, e).comments, s.net)
  {
    EventsStayStored(s.comments, Apply(s, k, e).comments, s.net);
  }

  lemma StepEvents(s: Sys, l: Label, s': Sys)
    requires Inv(s) && Next(s, l, s') && Grows(s, s')
    ensures EventsStored(s'.comments, s'.net) && MemoryBus.Inv(s'.net)
  {
    match l
    case Begin(_, _) =>
    case Advance(k, id, now) => ApplyEvents(s, k, Outcome(s, k, id, now).value);
    case Publish(k, targets) =>
      PublishEvents(s, k, targets, s');
      MemoryBus.StepInv(s.net, MemoryBus.Snapshot(k, EventOf(s.calls[k].phase.comment), targets), s'.net);
    case Net(m) =>
      NetEvents(s.comments, s.net, m, s'.net);
      MemoryBus.StepInv(s.net, m, s'.net);
  }

  lemma StepInv(s: Sys, l: Label, s': Sys)
    requires Inv(s) && Next(s, l, s')
    ensures Inv(s') && Grows(s, s')
  {
    StepService(s, l, s');
    StepEvents(s, l, s');
  }

  lemma InitialInv(s: Sys)
    requires Initial(s)
    ensures Inv(s)
  {
    MemoryBus.InitialInv(s.net);
  }

  lemma {:induction false} RunInv(states: seq<Sys>, labels: seq<Label>, i: nat)
    requires IsRun(states, labels) && i < |states|
    ensures Inv(states[i])
  {
    if i == 0 {
      InitialInv(states[0]);
    } else {
      RunInv(states, labels, i - 1);
      StepInv(states[i - 1], labels[i - 1], states[i]);
    }
  }

  /** Under any interleaving the stored comments are a forest under the stored posts: every post and parent exists, the
      parent on the same post, and every parent chain ends at a top-level comment of that post. */
  lemma AlwaysForest(states: seq<Sys>, labels: seq<Label>, i: nat)
    requires IsRun(states, labels) && i < |states|
    ensures Forest(states[i].posts.Keys, states[i].comments)
  {
    RunInv(states, labels, i);
  }

  // Hence the counts always add up.
  lemma AlwaysAddsUp(states: seq<Sys>, labels: seq<Label>, i: nat, topLevelCount: Uuid -> nat, replyCount: Uuid -> nat)
    requires IsRun(states, labels) && i < |states|
    requires forall id :: topLevelCount(id) == |TopLevel(states[i].comments, id)|
    requires forall id :: replyCount(id) == |Replies(states[i].comments, id)|
    ensures |states[i].comments|
         == SumOver(states[i].posts.Keys, topLevelCount) + SumOver(states[i].comments.Keys, replyCount)
  {
    RunInv(states, labels, i);
    CountsAddUp(states[i].posts.Keys, states[i].comments, topLevelCount, replyCount);
  }

  /** End to end: whatever a subscriber of a post has in its buffer, or has received, names a stored comment of that
      post, so the lookup of the subscription loop cannot miss. */
  lemma SubscribersSeeStoredComments(
    states: seq<Sys>, labels: seq<Label>, i: nat, c: EventBus.ChanRef, e: EventBus.Event)
    requires IsRun(states, labels) && i < |states| && c < |states[i].net.bus.chans|
    requires e in states[i].net.bus.chans[c].buffer + states[i].net.bus.chans[c].received
    ensures c < |states[i].net.bus.closures|
    ensures e.commentID in states[i].comments
    ensures states[i].comments[e.commentID].id == e.commentID
    ensures states[i].comments[e.commentID].postID == e.postID == states[i].net.bus.closures[c].postID
  {
    RunInv(states, labels, i);
    assert ChanAbout(states[i].comments, states[i].net.bus.chans[c]);
    assert MemoryBus.HoldsPost(states[i].net.bus.chans[c], states[i].net.bus.closures[c].postID);
  }

  // The event published by call k is the one of the comment it stored.
  ghost predicate PublishedOwn(s: Sys, k: nat)
  {
    && k in s.net.pubs && About(s.comments, s.net.pubs[k].event)
    && s.net.pubs[k].event.commentID in s.creator && s.creator[s.net.pubs[k].event.commentID] == k
  }

  /** With a publisher, published events are exactly the stored comments that are past their after-commit action: one
      publish for every CreateComment call that returned a comment, none for one that failed. */
  lemma PublishedExactlyTheCreated(states: seq<Sys>, labels: seq<Label>, i: nat)
    requires IsRun(states, labels) && i < |states| && states[i].publisher
    ensures forall k :: k in states[i].calls && states[i].calls[k].phase.Created? ==>
      PublishedOwn(states[i], k) && states[i].net.pubs[k].event == EventOf(states[i].calls[k].phase.comment)
    ensures forall k :: k in states[i].calls && states[i].calls[k].phase.Failed? ==> k !in states[i].net.pubs
    ensures forall k :: k in states[i].net.pubs ==> PublishedOwn(states[i], k)
    ensures forall id :: id in states[i].comments ==>
      && id in states[i].creator && states[i].creator[id] in states[i].calls
      && (PublishedOwn(states[i], states[i].creator[id]) || states[i].calls[states[i].creator[id]].phase.Stored?)
  {
    RunInv(states, labels, i);
    AllPublishedOwn(states[i]);
  }

  lemma AllPublishedOwn(s: Sys)
    requires CallsHold(s) && PublishesHold(s)
    ensures forall k :: k in s.net.pubs ==> PublishedOwn(s, k)
  {
    forall k | k in s.net.pubs ensures PublishedOwn(s, k) {
      PublishIsOwn(s, k);
    }
  }

  lemma PublishIsOwn(s: Sys, k: nat)
    requires CallsHold(s) && PublishesHold(s) && k in s.net.pubs
    ensures PublishedOwn(s, k)
  {
    assert CallHolds(s, k, s.calls[k]);
  }

  ghost predicate Recorded(s: Sys, k: nat, s': Sys)
  {
    && (s'.posts != s.posts || s'.comments != s.comments ==> k in s'.calls && s'.calls[k].wrote)
    && (forall j :: j in s.calls ==> j in s'.calls && (s.calls[j].wrote ==> s'.calls[j].wrote))
  }

  lemma ApplyRecords(s: Sys, k: nat, e: Effect)
    requires k in s.calls
    ensures Recorded(s, k, Apply(s, k, e))
  {
  }

  // A step that writes to the store is an Advance of a call that from then on counts as having written.
  lemma WritesAreRecorded(s: Sys, l: Label, s': Sys)
    requires Next(s, l, s')
    ensures if l.Advance? then Recorded(s, l.k, s')
            else s'.posts == s.posts && s'.comments == s.comments && Recorded(s, 0, s')
  {
    if l.Advance? { ApplyRecords(s, l.k, Outcome(s, l.k, l.id, l.now).value); }
  }

  lemma {:induction false} WroteStays(states: seq<Sys>, labels: seq<Label>, i: nat, j: nat, k: nat)
    requires IsRun(states, labels) && i <= j < |states| && k in states[i].calls
    ensures k in states[j].calls && (states[i].calls[k].wrote ==> states[j].calls[k].wrote)
    decreases j
  {
    if i < j {
      WroteStays(states, labels, i, j - 1, k);
      WrotesAt(states, labels, j - 1);
    }
  }

  lemma WrotesAt(states: seq<Sys>, labels: seq<Label>, i: nat)
    requires IsRun(states, labels) && i < |labels|
    ensures forall k :: k in states[i].calls ==>
      k in states[i + 1].calls && (states[i].calls[k].wrote ==> states[i + 1].calls[k].wrote)
  {
    WritesAreRecorded(states[i], labels[i], states[i + 1]);
  }

  lemma FailedNotWrote(states: seq<Sys>, labels: seq<Label>, n: nat, k: nat)
    requires IsRun(states, labels) && n < |states| && k in states[n].calls && states[n].calls[k].phase.Failed?
    ensures !states[n].calls[k].wrote
  {
    RunInv(states, labels, n);
    FailedIsClean(states[n], k);
  }

  lemma FailedIsClean(s: Sys, k: nat)
    requires CallsHold(s) && k in s.calls && s.calls[k].phase.Failed?
    ensures !s.calls[k].wrote
  {
    assert CallHolds(s, k, s.calls[k]);
  }

  /** Although nothing is rolled back, a call that failed has left no write of its own. */
  lemma FailedCallWroteNothing(states: seq<Sys>, labels: seq<Label>, n: nat, k: nat, i: nat)
    requires IsRun(states, labels) && n < |states| && k in states[n].calls && states[n].calls[k].phase.Failed?
    requires i < n && labels[i].Advance? && labels[i].k == k
    ensures states[i + 1].posts == states[i].posts && states[i + 1].comments == states[i].comments
  {
    WritesAreRecorded(states[i], labels[i], states[i + 1]);
    FailedNotWrote(states, labels, n, k);
    if states[i + 1].posts != states[i].posts || states[i + 1].comments != states[i].comments {
      WroteStays(states, labels, i + 1, n, k);
    }
  }

  /** A post's id, author, title, content and time never change, and its flag changes only in the write of a
      SetCommentsEnabled call for that post whose actor is the author, to the value asked for. */
  lemma OnlyAuthorsChangeFlags(s: Sys, l: Label, s': Sys, id: PostID)
    requires ServiceInv(s) && Next(s, l, s') && id in s.posts
    ensures id in s'.posts && s'.posts[id].SameButFlag(s.posts[id])
    ensures s'.posts[id].commentsEnabled != s.posts[id].commentsEnabled ==>
      && l.Advance? && l.k in s.calls
      && s.calls[l.k].request == SetCommentsEnabled(id, s.posts[id].authorID, s'.posts[id].commentsEnabled)
  {
    StepService(s, l, s');
    if l.Advance? {
      OutcomeHolds(s, l.k, l.id, l.now);
      FlagWritten(s, l.k, Outcome(s, l.k, l.id, l.now).value, id);
    }
  }

  lemma FlagWritten(s: Sys, k: nat, e: Effect, id: PostID)
    requires k in s.calls && EffectHolds(s, k, e) && id in s.posts
    ensures var s' := Apply(s, k, e);
      id in s'.posts && (s'.posts[id].commentsEnabled != s.posts[id].commentsEnabled ==>
        s.calls[k].request == SetCommentsEnabled(id, s.posts[id].authorID, s'.posts[id].commentsEnabled))
  {
  }

  lemma {:induction false} StoredForGood(states: seq<Sys>, labels: seq<Label>, i: nat, j: nat)
    requires IsRun(states, labels) && i <= j < |states|
    ensures Grows(states[i], states[j])
    decreases j
  {
    if i < j {
      StoredForGood(states, labels, i, j - 1);
      GrowsAt(states, labels, j - 1);
    }
  }

  lemma GrowsAt(states: seq<Sys>, labels: seq<Label>, i: nat)
    requires IsRun(states, labels) && i < |labels|
    ensures Grows(states[i], states[i + 1])
  {
    RunInv(states, labels, i);
    StepInv(states[i], labels[i], states[i + 1]);
  }
}

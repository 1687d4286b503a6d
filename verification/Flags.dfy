/** Comments on posts that were disabled meanwhile. CreateComment reads the post in one step and inserts in another,
    so a comment can land on a disabled post; this says exactly when. */
module FlagHistory {
  import opened Wrappers
  import opened Uuids
  import opened Domain
  import opened Interleaving

  // The value that a step writes to the flag of post p: SetCommentsEnabled writing its changed copy back.
  function FlagWrite(s: Sys, l: Label, p: PostID): Option<bool>
  {
    if l.Advance? && l.k in s.calls && s.calls[l.k].phase.PostChanged? && s.calls[l.k].request.SetCommentsEnabled?
      && s.calls[l.k].request.postID == p
    then Some(s.calls[l.k].request.enabled)
    else None
  }

  // The last value written to the flag of post p by the steps from i to j.
  function LastFlag(states: seq<Sys>, labels: seq<Label>, i: nat, j: nat, p: PostID): Option<bool>
    requires |states| == |labels| + 1 && j <= |labels|
    decreases j
  {
    if j <= i then None
    else if FlagWrite(states[j - 1], labels[j - 1], p).Some? then FlagWrite(states[j - 1], labels[j - 1], p)
    else LastFlag(states, labels, i, j - 1, p)
  }

  // The flag is what was written last, or what it was.
  ghost predicate FlagFollows(was: map<PostID, Post>, now: map<PostID, Post>, p: PostID, written: Option<bool>)
  {
    && p in was && p in now
    && now[p].commentsEnabled == if written.Some? then written.value else was[p].commentsEnabled
  }

  // A repository call writes a stored post only as the second step of SetCommentsEnabled, with the flag asked for.
  lemma PostWritten(s: Sys, k: nat, id: Uuid, now: Time, p: PostID)
    requires k in s.calls && CallHolds(s, k, s.calls[k]) && p in s.posts && id !in s.posts
    requires Outcome(s, k, id, now).Some?
    ensures FlagFollows(
      s.posts, Apply(s, k, Outcome(s, k, id, now).value).posts, p, FlagWrite(s, Advance(k, id, now), p))
  {
    match s.calls[k].request
    case CreatePost(authorID, title, content) => PostMade(s, k, id, now, p);
    case SetCommentsEnabled(_, _, _) => FlagSet(s, k, id, now, p);
    case CreateComment(_, _, _, _) => NoPostWritten(s, k, id, now);
  }

  lemma PostMade(s: Sys, k: nat, id: Uuid, now: Time, p: PostID)
    requires k in s.calls && s.calls[k].request.CreatePost? && p in s.posts && id !in s.posts
    requires Outcome(s, k, id, now).Some?
    ensures FlagFollows(s.posts, Apply(s, k, Outcome(s, k, id, now).value).posts, p, None)
  {
    var r := s.calls[k].request;
    var made := NewPost(id, r.authorID, r.title, r.content, now);
    if made.Ok? { assert made.value.id == id; }
  }

  lemma FlagSet(s: Sys, k: nat, id: Uuid, now: Time, p: PostID)
    requires k in s.calls && s.calls[k].request.SetCommentsEnabled? && CallHolds(s, k, s.calls[k]) && p in s.posts
    requires Outcome(s, k, id, now).Some?
    ensures FlagFollows(
      s.posts, Apply(s, k, Outcome(s, k, id, now).value).posts, p, FlagWrite(s, Advance(k, id, now), p))
  {
  }

  lemma NoPostWritten(s: Sys, k: nat, id: Uuid, now: Time)
    requires k in s.calls && s.calls[k].request.CreateComment? && Outcome(s, k, id, now).Some?
    ensures Apply(s, k, Outcome(s, k, id, now).value).posts == s.posts
  {
  }

  lemma FlagStep(s: Sys, l: Label, s': Sys, p: PostID)
    requires CallsHold(s) && Next(s, l, s') && p in s.posts
    ensures FlagFollows(s.posts, s'.posts, p, FlagWrite(s, l, p))
  {
    if l.Advance? {
      assert CallHolds(s, l.k, s.calls[l.k]);
      PostWritten(s, l.k, l.id, l.now, p);
    }
  }

  lemma FlagAt(states: seq<Sys>, labels: seq<Label>, i: nat, p: PostID)
    requires IsRun(states, labels) && i < |labels| && p in states[i].posts
    ensures FlagFollows(states[i].posts, states[i + 1].posts, p, FlagWrite(states[i], labels[i], p))
  {
    RunInv(states, labels, i);
    FlagStep(states[i], labels[i], states[i + 1], p);
  }

  /** In every run, the flag of a post is the last value written since, or what it was. */
  lemma {:induction false} FlagBetween(states: seq<Sys>, labels: seq<Label>, i: nat, j: nat, p: PostID)
    requires IsRun(states, labels) && i <= j < |states| && p in states[i].posts
    ensures FlagFollows(states[i].posts, states[j].posts, p, LastFlag(states, labels, i, j, p))
    decreases j
  {
    if i < j {
      FlagBetween(states, labels, i, j - 1, p);
      FlagAt(states, labels, j - 1, p);
    }
  }

  // Step i is the check of the post by CreateComment call k, and passes.
  ghost predicate PassesCheck(states: seq<Sys>, labels: seq<Label>, i: nat, k: nat)
  {
    && i < |labels| && |states| == |labels| + 1 && labels[i].Advance? && labels[i].k == k
    && k in states[i].calls && states[i].calls[k].request.CreateComment? && states[i].calls[k].phase.Begun?
    && k in states[i + 1].calls && !states[i + 1].calls[k].phase.Failed?
  }

  lemma PassedMeansEnabled(states: seq<Sys>, labels: seq<Label>, i: nat, k: nat)
    requires IsRun(states, labels) && PassesCheck(states, labels, i, k)
    ensures var p := states[i].calls[k].request.postID;
      p in states[i].posts && states[i].posts[p].commentsEnabled && states[i + 1].posts == states[i].posts
  {
    assert Next(states[i], labels[i], states[i + 1]);
    var p := states[i].calls[k].request.postID;
    CheckedPost(states[i], k, labels[i].id, labels[i].now);
  }

  lemma CheckedPost(s: Sys, k: nat, id: Uuid, now: Time)
    requires k in s.calls && s.calls[k].request.CreateComment? && s.calls[k].phase.Begun?
    ensures Outcome(s, k, id, now).Some?
    ensures var r, s' := s.calls[k].request, Apply(s, k, Outcome(s, k, id, now).value);
      && s'.posts == s.posts
      && (!s'.calls[k].phase.Failed? ==> r.postID in s.posts && s.posts[r.postID].commentsEnabled)
  {
  }

  /** Once a CreateComment call has passed its check, its post is disabled in a later state exactly when the last value
      written to the flag since then is false. */
  lemma DisabledIff(states: seq<Sys>, labels: seq<Label>, i: nat, j: nat, k: nat)
    requires IsRun(states, labels) && PassesCheck(states, labels, i, k) && i < j < |states|
    ensures var p := states[i].calls[k].request.postID;
      && p in states[j].posts
      && (!states[j].posts[p].commentsEnabled <==> LastFlag(states, labels, i + 1, j, p) == Some(false))
  {
    PassedMeansEnabled(states, labels, i, k);
    FlagBetween(states, labels, i + 1, j, states[i].calls[k].request.postID);
  }

  // Step j is the insert of CreateComment call k.
  ghost predicate Inserts(states: seq<Sys>, labels: seq<Label>, j: nat, k: nat)
  {
    && j < |labels| && |states| == |labels| + 1 && labels[j].Advance? && labels[j].k == k
    && k in states[j].calls && states[j].calls[k].request.CreateComment? && states[j].calls[k].phase.ParentRead?
    && k in states[j + 1].calls && states[j + 1].calls[k].phase.Stored?
  }

  // A call that is past its check has passed it at some step.
  lemma {:induction false} CheckedBefore(states: seq<Sys>, labels: seq<Label>, j: nat, k: nat) returns (i: nat)
    requires IsRun(states, labels) && j < |states| && k in states[j].calls && states[j].calls[k].request.CreateComment?
    requires states[j].calls[k].phase.PostRead? || states[j].calls[k].phase.ParentRead?
    ensures i < j && PassesCheck(states, labels, i, k) && states[i].calls[k].request == states[j].calls[k].request
    decreases j
  {
    assert j > 0;
    ToChecked(states[j - 1], labels[j - 1], states[j], k);
    if states[j - 1].calls[k].phase.Begun? {
      i := j - 1;
    } else {
      i := CheckedBefore(states, labels, j - 1, k);
    }
  }

  // Such a call was one already, or has just passed.
  lemma ToChecked(s: Sys, l: Label, s': Sys, k: nat)
    requires Next(s, l, s') && k in s'.calls && s'.calls[k].request.CreateComment?
    requires s'.calls[k].phase.PostRead? || s'.calls[k].phase.ParentRead?
    ensures k in s.calls && s.calls[k].request == s'.calls[k].request
    ensures s.calls[k].phase.PostRead? || s.calls[k].phase.ParentRead?
         || (s.calls[k].phase.Begun? && l.Advance? && l.k == k)
  {
    match l
    case Begin(_, _) =>
    case Advance(j, id, now) =>
      if j == k { AdvancedToChecked(s, k, id, now); } else { OthersStay(s, j, Outcome(s, j, id, now).value, k); }
    case Publish(j, _) => if j != k { OthersStay(s, j, Move(Publishing(s.calls[j].phase.comment)), k); }
    case Net(_) =>
  }

  lemma OthersStay(s: Sys, j: nat, e: Effect, k: nat)
    requires j in s.calls && j != k && k in Apply(s, j, e).calls
    ensures k in s.calls && Apply(s, j, e).calls[k] == s.calls[k]
  {
  }

  lemma AdvancedToChecked(s: Sys, k: nat, id: Uuid, now: Time)
    requires k in s.calls && s.calls[k].request.CreateComment? && Outcome(s, k, id, now).Some?
    requires var p := Apply(s, k, Outcome(s, k, id, now).value).calls[k].phase; p.PostRead? || p.ParentRead?
    ensures s.calls[k].phase.Begun? || s.calls[k].phase.PostRead?
  {
  }

  /** Exactly when a comment lands on a disabled post: its call passed the check, and the last value written to the
      post's flag between that step and the insert is false. */
  lemma LandsOnDisabledIff(states: seq<Sys>, labels: seq<Label>, j: nat, k: nat) returns (i: nat)
    requires IsRun(states, labels) && Inserts(states, labels, j, k)
    ensures i < j && PassesCheck(states, labels, i, k)
    ensures var c := states[j + 1].calls[k].phase.comment;
      && c.id !in states[j].comments && c.id in states[j + 1].comments && states[j + 1].comments[c.id] == c
      && c.postID in states[j + 1].posts
      && (!states[j + 1].posts[c.postID].commentsEnabled <==>
             LastFlag(states, labels, i + 1, j, c.postID) == Some(false))
  {
    i := CheckedBefore(states, labels, j, k);
    DisabledIff(states, labels, i, j, k);
    InsertAt(states, labels, j, k);
  }

  lemma InsertAt(states: seq<Sys>, labels: seq<Label>, j: nat, k: nat)
    requires IsRun(states, labels) && Inserts(states, labels, j, k)
    ensures var c := states[j + 1].calls[k].phase.comment;
      && c.id !in states[j].comments && states[j + 1].comments == states[j].comments[c.id := c]
      && c.postID == states[j].calls[k].request.postID && states[j + 1].posts == states[j].posts
  {
    assert Next(states[j], labels[j], states[j + 1]);
    InsertedComment(states[j], k, labels[j].id, labels[j].now);
  }

  lemma InsertedComment(s: Sys, k: nat, id: Uuid, now: Time)
    requires k in s.calls && s.calls[k].request.CreateComment? && s.calls[k].phase.ParentRead?
    ensures Outcome(s, k, id, now).Some?
    ensures var s' := Apply(s, k, Outcome(s, k, id, now).value);
      s'.calls[k].phase.Stored? ==>
        var c := s'.calls[k].phase.comment;
        c.id == id && c.postID == s.calls[k].request.postID && s'.posts == s.posts && s'.comments == s.comments[id := c]
  {
    var r := s.calls[k].request;
    var made := NewComment(id, r.postID, r.parentID, r.authorID, r.body, now);
    if made.Ok? { assert made.value == Comment(id, r.postID, r.parentID, r.authorID, r.body, now); }
  }

  // The state after a step that begins a call, or after the next repository call of one.
  function Do(s: Sys, l: Label): Sys
    requires l.Begin? || (l.Advance? && l.k in s.calls && Outcome(s, l.k, l.id, l.now).Some?)
  {
    if l.Begin? then s.(calls := s.calls[l.k := Call(l.request, Begun, true, false)])
    else Apply(s, l.k, Outcome(s, l.k, l.id, l.now).value)
  }

  const POST: Uuid := RawUuid([1, 0, 0, 0, 0, 0, 0, 0, 0, 0, 0, 0, 0, 0, 0, 0])
  const COMMENT: Uuid := RawUuid([2, 0, 0, 0, 0, 0, 0, 0, 0, 0, 0, 0, 0, 0, 0, 0])
  const AUTHOR: Uuid := RawUuid([3, 0, 0, 0, 0, 0, 0, 0, 0, 0, 0, 0, 0, 0, 0, 0])

  // Call 0 creates the post, call 1 comments on it and call 2 disables it: create, check, read, disable, insert.
  const DISABLING: seq<Label> := [
    Begin(0, CreatePost(AUTHOR, "title", "content")), Advance(0, POST, 1),
    Begin(1, CreateComment(POST, None, AUTHOR, "body")), Advance(1, COMMENT, 1),
    Begin(2, SetCommentsEnabled(POST, AUTHOR, false)), Advance(2, COMMENT, 1), Advance(2, COMMENT, 1),
    Advance(1, COMMENT, 1)]

  const ENABLED_POST: Post := Post(POST, AUTHOR, "title", "content", true, 1)
  const DISABLED_POST: Post := Post(POST, AUTHOR, "title", "content", false, 1)
  const LATE_COMMENT: Comment := Comment(COMMENT, POST, None, AUTHOR, "body", 1)

  lemma ThreeIds()
    ensures POST != NIL && COMMENT != NIL && AUTHOR != NIL && POST != COMMENT
    ensures NewPost(POST, AUTHOR, "title", "content", 1) == Ok(ENABLED_POST)
    ensures NewComment(COMMENT, POST, None, AUTHOR, "body", 1) == Ok(LATE_COMMENT)
  {
    assert POST.bytes[0] != NIL.bytes[0] && COMMENT.bytes[0] != NIL.bytes[0] && AUTHOR.bytes[0] != NIL.bytes[0];
    assert POST.bytes[0] != COMMENT.bytes[0];
    assert !IsSpace("title"[0]) && !IsSpace("content"[0]) && !IsSpace("body"[0]);
  }

  const PASSED: Call := Call(CreateComment(POST, None, AUTHOR, "body"), ParentRead, true, false)
  const READ: Call := Call(SetCommentsEnabled(POST, AUTHOR, false), PostChanged(DISABLED_POST), true, false)

  lemma CreatesPost(s0: Sys) returns (s1: Sys, s2: Sys)
    requires Initial(s0)
    ensures Next(s0, DISABLING[0], s1) && Next(s1, DISABLING[1], s2)
    ensures s2.posts == map[POST := ENABLED_POST] && s2.comments == map[] && s2.calls.Keys == {0}
  {
    ThreeIds();
    s1 := Do(s0, DISABLING[0]);
    s2 := Do(s1, DISABLING[1]);
  }

  lemma ChecksPost(s2: Sys) returns (s3: Sys, s4: Sys)
    requires s2.posts == map[POST := ENABLED_POST] && s2.comments == map[] && s2.calls.Keys == {0}
    ensures Next(s2, DISABLING[2], s3) && Next(s3, DISABLING[3], s4)
    ensures s4.posts == s2.posts && s4.comments == map[] && 2 !in s4.calls && 1 in s4.calls && s4.calls[1] == PASSED
  {
    ThreeIds();
    s3 := Do(s2, DISABLING[2]);
    s4 := Do(s3, DISABLING[3]);
  }

  lemma ReadsPost(s4: Sys) returns (s5: Sys, s6: Sys)
    requires s4.posts == map[POST := ENABLED_POST] && s4.comments == map[] && 2 !in s4.calls
    requires 1 in s4.calls && s4.calls[1] == PASSED
    ensures Next(s4, DISABLING[4], s5) && Next(s5, DISABLING[5], s6)
    ensures s6.posts == s4.posts && s6.comments == map[]
    ensures 1 in s6.calls && s6.calls[1] == PASSED && 2 in s6.calls && s6.calls[2] == READ
  {
    ThreeIds();
    s5 := Do(s4, DISABLING[4]);
    s6 := Do(s5, DISABLING[5]);
  }

  lemma DisablesPost(s6: Sys) returns (s7: Sys)
    requires s6.posts == map[POST := ENABLED_POST] && s6.comments == map[]
    requires 1 in s6.calls && s6.calls[1] == PASSED && 2 in s6.calls && s6.calls[2] == READ
    ensures Next(s6, DISABLING[6], s7)
    ensures s7.posts == map[POST := DISABLED_POST] && s7.comments == map[] && 1 in s7.calls && s7.calls[1] == PASSED
  {
    ThreeIds();
    s7 := Do(s6, DISABLING[6]);
  }

  lemma InsertsLate(s7: Sys) returns (s8: Sys)
    requires s7.posts == map[POST := DISABLED_POST] && s7.comments == map[] && 1 in s7.calls && s7.calls[1] == PASSED
    ensures Next(s7, DISABLING[7], s8)
    ensures s8.posts == s7.posts && s8.comments == map[COMMENT := LATE_COMMENT]
  {
    ThreeIds();
    s8 := Do(s7, DISABLING[7]);
  }

  lemma UpToCheck(s0: Sys) returns (states: seq<Sys>)
    requires Initial(s0)
    ensures |states| == 5 && states[0] == s0
    ensures forall i {:trigger DISABLING[i]} :: 0 <= i < 4 ==> Next(states[i], DISABLING[i], states[i + 1])
    ensures var s4 := states[4];
      && s4.posts == map[POST := ENABLED_POST] && s4.comments == map[] && 2 !in s4.calls
      && 1 in s4.calls && s4.calls[1] == PASSED
  {
    var s1, s2 := CreatesPost(s0);
    var s3, s4 := ChecksPost(s2);
    states := [s0, s1, s2, s3, s4];
  }

  lemma FromCheck(s4: Sys) returns (states: seq<Sys>)
    requires s4.posts == map[POST := ENABLED_POST] && s4.comments == map[] && 2 !in s4.calls
    requires 1 in s4.calls && s4.calls[1] == PASSED
    ensures |states| == 5 && states[0] == s4
    ensures forall i {:trigger DISABLING[i]} :: 4 <= i < 8 ==> Next(states[i - 4], DISABLING[i], states[i - 3])
    ensures states[4].posts == map[POST := DISABLED_POST] && states[4].comments == map[COMMENT := LATE_COMMENT]
  {
    var s5, s6 := ReadsPost(s4);
    var s7 := DisablesPost(s6);
    var s8 := InsertsLate(s7);
    states := [s4, s5, s6, s7, s8];
  }

  // It does happen.
  lemma CanLandOnDisabled(s0: Sys)
    requires Initial(s0)
    ensures exists states: seq<Sys> ::
      && IsRun(states, DISABLING) && states[0] == s0
      && COMMENT in states[8].comments && POST in states[8].posts && !states[8].posts[POST].commentsEnabled
      && states[8].comments[COMMENT].postID == POST
  {
    var first := UpToCheck(s0);
    var second := FromCheck(first[4]);
    var states := first + second[1..];
    forall i {:trigger DISABLING[i]} | 0 <= i < 8 ensures Next(states[i], DISABLING[i], states[i + 1]) {
      if i >= 4 { assert states[i] == second[i - 4] && states[i + 1] == second[i - 3]; }
    }
    assert IsRun(states, DISABLING);
  }
}

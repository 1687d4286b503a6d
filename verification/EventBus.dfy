/** The part that the memory and the PostgreSQL event bus share: subscriber maps, buffered channels, unsubscribe
    closures. Every method is one critical section (or one channel operation) of the Go code. */
module EventBus {
  import opened Wrappers
  import opened Domain

  datatype Event = CommentAdded(postID: PostID, commentID: CommentID, authorID: UserID)

  // Channels live in a heap and are named by their index: make(chan) appends one.
  type ChanRef = nat

  // received is history: what the subscriber has taken out so far.
  datatype Chan = Chan(open: bool, buffer: seq<Event>, received: seq<Event>)

  // The closure returned by a Subscribe call; used is its sync.Once.
  datatype Closure = Closure(postID: PostID, id: nat, used: bool)

  datatype BusState = BusState(
    subscribers: map<PostID, map<nat, ChanRef>>, nextID: nat, closed: bool, bufferSize: nat,
    chans: seq<Chan>, closures: seq<Closure>)

  const DEFAULT_BUFFER_SIZE := 16

  // b.subscribers[postID][id]
  function Lookup(s: BusState, p: PostID, i: int): Option<ChanRef>
  {
    if p in s.subscribers && i in s.subscribers[p] then Some(s.subscribers[p][i]) else None
  }

  // The channel is in the subscriber maps, under the post and id of its own Subscribe call.
  predicate Registered(s: BusState, c: ChanRef)
    requires c < |s.closures|
  {
    Lookup(s, s.closures[c].postID, s.closures[c].id) == Some(c)
  }

  // Subscription ids are never reused: the n-th Subscribe call owns id n + 1 and channel n, even when a post's
  // inner map is dropped and made again.
  ghost predicate OwnIds(s: BusState)
  {
    && |s.chans| == |s.closures| == s.nextID
    && (forall c :: 0 <= c < s.nextID ==> s.closures[c].id == c + 1)
    && (forall p, i {:trigger Lookup(s, p, i)} :: Lookup(s, p, i).Some? ==>
          1 <= i <= s.nextID && Lookup(s, p, i) == Some(i - 1) && s.closures[i - 1].postID == p)
  }

  // A channel is open iff it is registered, and not once its closure has run.
  ghost predicate OpenIffRegistered(s: BusState)
    requires |s.chans| == |s.closures|
  {
    forall c {:trigger s.chans[c]} :: 0 <= c < |s.chans| ==>
      (s.chans[c].open <==> Registered(s, c)) && (s.closures[c].used ==> !s.chans[c].open)
  }

  ghost predicate Bounded(s: BusState)
  {
    s.bufferSize > 0 && forall c :: 0 <= c < |s.chans| ==> |s.chans[c].buffer| <= s.bufferSize
  }

  // No inner map is left empty.
  ghost predicate NoEmptyInner(s: BusState) { forall p :: p in s.subscribers ==> s.subscribers[p] != map[] }

  ghost predicate Consistent(s: BusState) { OwnIds(s) && OpenIffRegistered(s) && Bounded(s) }

  /** What every step keeps. */
  ghost predicate Valid(s: BusState) { Consistent(s) && NoEmptyInner(s) }

  function New(bufferSize: int): BusState
  {
    BusState(map[], 0, false, if bufferSize <= 0 then DEFAULT_BUFFER_SIZE else bufferSize, [], [])
  }

  function Subscribed(s: BusState, postID: PostID): BusState
  {
    var inner := if postID in s.subscribers then s.subscribers[postID] else map[];
    s.(nextID := s.nextID + 1,
       chans := s.chans + [Chan(true, [], [])],
       closures := s.closures + [Closure(postID, s.nextID + 1, false)],
       subscribers := s.subscribers[postID := inner[s.nextID + 1 := |s.chans|]])
  }

  function Unsubscribed(s: BusState, k: nat): BusState
    requires k < |s.closures| == |s.chans|
  {
    var s' := s.(closures := s.closures[k := s.closures[k].(used := true)]);
    if s.closures[k].used || !Registered(s, k) then s'
    else
      var postID := s.closures[k].postID;
      var inner := s.subscribers[postID] - {s.closures[k].id};
      s'.(chans := s.chans[k := s.chans[k].(open := false)],
          subscribers := if inner == map[] then s.subscribers - {postID} else s.subscribers[postID := inner])
  }

  // Targets read under the lock: every channel registered for the post, once, in any order.
  ghost predicate IsSnapshot(s: BusState, postID: PostID, targets: seq<ChanRef>)
  {
    && (forall c :: c in targets <==> 0 <= c < |s.closures| && s.closures[c].postID == postID && Registered(s, c))
    && (forall i, j :: 0 <= i < j < |targets| ==> targets[i] != targets[j])
  }

  // select { case ch <- event: default: } on an open channel; on a closed one Go panics.
  function Sent(s: BusState, c: ChanRef, event: Event): BusState
    requires c < |s.chans| && s.chans[c].open
  {
    if |s.chans[c].buffer| < s.bufferSize then
      s.(chans := s.chans[c := s.chans[c].(buffer := s.chans[c].buffer + [event])])
    else s
  }

  function Received(s: BusState, c: ChanRef): BusState
    requires c < |s.chans| && s.chans[c].buffer != []
  {
    var ch := s.chans[c];
    s.(chans := s.chans[c := ch.(buffer := ch.buffer[1..], received := ch.received + [ch.buffer[0]])])
  }

  // Every registered channel closed, both levels of the map emptied.
  function Swept(s: BusState): BusState
  {
    s.(subscribers := map[], chans := seq(|s.chans|, c requires 0 <= c < |s.chans| => s.chans[c].(open := false)))
  }

  // The memory bus closes in one critical section.
  function Closed(s: BusState): BusState { if s.closed then s else Swept(s).(closed := true) }

  // A new bus is open, has no subscriber and the buffer size asked for, or 16 if that is not positive.
  lemma NewExact(bufferSize: int)
    ensures var s := New(bufferSize);
      && !s.closed && s.subscribers == map[] && s.chans == [] && s.closures == []
      && s.bufferSize == if bufferSize > 0 then bufferSize else 16
  {
  }

  // Subscribing makes one channel, open and empty, registered for its post, and touches no other.
  lemma SubscribedExact(s: BusState, postID: PostID)
    requires OwnIds(s)
    ensures var t, c := Subscribed(s, postID), |s.chans|;
      && t.chans == s.chans + [Chan(true, [], [])] && |t.closures| == c + 1 && t.closures[..c] == s.closures
      && t.closures[c].postID == postID && !t.closures[c].used && Registered(t, c)
      && t.closed == s.closed && t.bufferSize == s.bufferSize
      && forall d :: 0 <= d < c ==> (Registered(t, d) <==> Registered(s, d))
  {
    var t, c := Subscribed(s, postID), |s.chans|;
    SubscribedLookup(s, postID, postID, s.nextID + 1);
    forall d | 0 <= d < c ensures Registered(t, d) <==> Registered(s, d) {
      SubscribedLookup(s, postID, s.closures[d].postID, s.closures[d].id);
    }
  }

  // Unsubscribing closes its own channel, once, and keeps what every channel holds and has given out.
  lemma UnsubscribedExact(s: BusState, k: nat)
    requires Valid(s) && k < s.nextID
    ensures var t := Unsubscribed(s, k);
      && |t.chans| == |s.chans| && |t.closures| == |s.closures| && t.closed == s.closed && t.bufferSize == s.bufferSize
      && (forall c :: 0 <= c < |s.chans| ==> t.chans[c] == s.chans[c].(open := s.chans[c].open && c != k))
      && (forall c :: 0 <= c < |s.chans| ==> t.closures[c] == s.closures[c].(used := s.closures[c].used || c == k))
  {
    UnsubscribedValid(s, k);
  }

  /** Closing marks the bus, closes every channel, empties the map, and keeps what the channels hold; again, it changes
      nothing. */
  lemma ClosedExact(s: BusState)
    ensures var t := Closed(s);
      && t.closed && (s.closed ==> t == s)
      && (!s.closed ==>
            && t.subscribers == map[] && |t.chans| == |s.chans| && t.closures == s.closures
            && forall c :: 0 <= c < |s.chans| ==> t.chans[c] == s.chans[c].(open := false))
  {
  }

  /** A snapshot takes exactly the open channels of its post, each once. */
  lemma SnapshotExact(s: BusState, postID: PostID, targets: seq<ChanRef>)
    requires Valid(s) && IsSnapshot(s, postID, targets)
    ensures forall c: ChanRef :: c in targets <==> c < |s.chans| && s.chans[c].open && s.closures[c].postID == postID
    ensures forall i, j :: 0 <= i < j < |targets| ==> targets[i] != targets[j]
  {
  }

  lemma SubscribedLookup(s: BusState, postID: PostID, p: PostID, i: int)
    ensures Lookup(Subscribed(s, postID), p, i)
         == if p == postID && i == s.nextID + 1 then Some(|s.chans|) else Lookup(s, p, i)
  {
  }

  lemma SubscribedValid(s: BusState, postID: PostID)
    requires Valid(s)
    ensures Valid(Subscribed(s, postID))
  {
    var s' := Subscribed(s, postID);
    forall p, i
      ensures Lookup(s', p, i) == if p == postID && i == s.nextID + 1 then Some(|s.chans|) else Lookup(s, p, i) {
      SubscribedLookup(s, postID, p, i);
    }
    assert OwnIds(s');
    assert OpenIffRegistered(s');
    assert s.nextID + 1 in s'.subscribers[postID];
  }

  lemma SameMaps(s: BusState, s': BusState)
    requires s'.subscribers == s.subscribers
    ensures forall p, i {:trigger Lookup(s', p, i)} :: Lookup(s', p, i) == Lookup(s, p, i)
  {
  }

  // The entries of a post's inner map are its registered channels.
  lemma InnerEntry(s: BusState, postID: PostID, c: int)
    requires Consistent(s)
    ensures Lookup(s, postID, c + 1).Some? <==>
      0 <= c < |s.closures| && s.closures[c].postID == postID && Registered(s, c)
  {
    assert Lookup(s, postID, c + 1).Some? ==> Lookup(s, postID, c + 1) == Some(c);
  }

  function Inner(s: BusState, postID: PostID): map<nat, ChanRef>
  {
    if postID in s.subscribers then s.subscribers[postID] else map[]
  }

  lemma InnerIsOwn(s: BusState, postID: PostID)
    requires Consistent(s)
    ensures forall id :: id in Inner(s, postID) ==> id >= 1 && Inner(s, postID)[id] == id - 1
  {
    forall id | id in Inner(s, postID) ensures id >= 1 && Inner(s, postID)[id] == id - 1 {
      assert Lookup(s, postID, id).Some?;
    }
  }

  lemma SnapshotTaken(s: BusState, postID: PostID, targets: seq<ChanRef>, order: seq<nat>)
    requires Consistent(s) && |order| == |targets|
    requires forall i :: 0 <= i < |order| ==> order[i] in Inner(s, postID) && targets[i] == Inner(s, postID)[order[i]]
    requires forall id :: id in Inner(s, postID) ==> id in order
    requires forall i, j :: 0 <= i < j < |order| ==> order[i] != order[j]
    ensures IsSnapshot(s, postID, targets)
  {
    InnerIsOwn(s, postID);
    forall c: ChanRef
      ensures c in targets <==> 0 <= c < |s.closures| && s.closures[c].postID == postID && Registered(s, c)
    {
      InnerEntry(s, postID, c);
      if c + 1 in Inner(s, postID) {
        var i :| 0 <= i < |order| && order[i] == c + 1;
        assert targets[i] == c;
      }
    }
  }

  // The values of a map, read in the order in which the range loop happens to visit the keys.
  method InAnyOrder(inner: map<nat, ChanRef>) returns (targets: seq<ChanRef>, ghost order: seq<nat>)
    ensures |order| == |targets|
    ensures forall i :: 0 <= i < |order| ==> order[i] in inner && targets[i] == inner[order[i]]
    ensures forall id :: id in inner ==> id in order
    ensures forall i, j :: 0 <= i < j < |order| ==> order[i] != order[j]
  {
    targets, order := [], [];
    var ids := inner.Keys;
    while ids != {}
      invariant ids <= inner.Keys && |order| == |targets|
      invariant forall i :: 0 <= i < |order| ==> order[i] in inner.Keys - ids && targets[i] == inner[order[i]]
      invariant forall id :: id in inner ==> id in ids || id in order
      invariant forall i, j :: 0 <= i < j < |order| ==> order[i] != order[j]
    {
      var id :| id in ids;
      targets, order := targets + [inner[id]], order + [id];
      ids := ids - {id};
    }
  }

  lemma UnsubscribedLookup(s: BusState, k: nat, p: PostID, i: int)
    requires Valid(s) && k < s.nextID
    ensures Lookup(Unsubscribed(s, k), p, i)
         == if p == s.closures[k].postID && i == k + 1 then None else Lookup(s, p, i)
  {
    assert s.chans[k].open <==> Lookup(s, s.closures[k].postID, k + 1) == Some(k);
    assert Lookup(s, p, i).Some? ==> Lookup(s, p, i) == Some(i - 1);
    if p == s.closures[k].postID && p in s.subscribers && i in s.subscribers[p] && i != k + 1 {
      assert i in s.subscribers[p] - {k + 1};
    }
  }

  lemma UnsubscribedValid(s: BusState, k: nat)
    requires Valid(s) && k < s.nextID
    ensures Valid(Unsubscribed(s, k))
    ensures !Unsubscribed(s, k).chans[k].open
  {
    var s' := Unsubscribed(s, k);
    forall p, i ensures Lookup(s', p, i) == if p == s.closures[k].postID && i == k + 1 then None else Lookup(s, p, i) {
      UnsubscribedLookup(s, k, p, i);
    }
    assert OwnIds(s');
    assert OpenIffRegistered(s');
  }

  // A new bus with one subscriber: its channel is what a snapshot takes, and unsubscribing closes it.
  lemma OneSubscriber(postID: PostID)
    ensures var s := Subscribed(New(0), postID);
      && Valid(s) && |s.chans| == |s.closures| == 1 && s.chans[0].open && IsSnapshot(s, postID, [0])
      && var t := Unsubscribed(s, 0);
         |t.chans| == |t.closures| == 1 && !t.chans[0].open
  {
    SubscribedValid(New(0), postID);
    var s := Subscribed(New(0), postID);
    assert Registered(s, 0);
    UnsubscribedValid(s, 0);
  }

  // One unsubscribe closes its own channel and no other.
  lemma UnsubscribeOpen(s: BusState, k: nat, c: ChanRef)
    requires Valid(s) && k < s.nextID && c < |s.chans|
    ensures var t := Unsubscribed(s, k);
      && c < |t.chans| && c < |t.closures|
      && (t.chans[c].open <==> s.chans[c].open && c != k)
      && t.closures[c].postID == s.closures[c].postID && t.closures[c].id == s.closures[c].id
  {
    UnsubscribedValid(s, k);
  }

  lemma SweptValid(s: BusState)
    requires Valid(s)
    ensures Valid(Swept(s))
  {
  }

  /** The buses' fields; chans and closures are the heap objects that Subscribe makes. */
  class Bus {
    var subscribers: map<PostID, map<nat, ChanRef>>
    var nextID: nat
    var closed: bool
    const bufferSize: nat
    var chans: seq<Chan>
    var closures: seq<Closure>

    ghost function State(): BusState
      reads this
    {
      BusState(subscribers, nextID, closed, bufferSize, chans, closures)
    }

    constructor (bufferSize: int)
      ensures State() == New(bufferSize) && Valid(State())
    {
      this.bufferSize := if bufferSize <= 0 then DEFAULT_BUFFER_SIZE else bufferSize;
      subscribers, nextID, closed, chans, closures := map[], 0, false, [], [];
    }

    method Subscribe(postID: PostID) returns (r: Result<ChanRef, Error>)
      requires Valid(State())
      modifies this
      ensures Valid(State())
      ensures old(closed) ==> State() == old(State()) && r == Err(Conflict("event bus", "closed"))
      ensures !old(closed) ==> State() == Subscribed(old(State()), postID) && r == Ok(|old(chans)|)
    {
      if closed {
        return Err(Conflict("event bus", "closed"));
      }
      nextID := nextID + 1;
      var channel := |chans|;
      chans := chans + [Chan(true, [], [])];
      if postID !in subscribers {
        subscribers := subscribers[postID := map[]];
      }
      var inner: map<nat, ChanRef> := subscribers[postID];
      subscribers := subscribers[postID := inner[nextID := channel]];
      closures := closures + [Closure(postID, nextID, false)];
      assert State() == Subscribed(old(State()), postID);
      SubscribedValid(old(State()), postID);
      return Ok(channel);
    }

    // close(ch): Go panics when the channel is closed already, so every call has to prove that it is open.
    method CloseChan(c: ChanRef)
      requires c < |chans| && chans[c].open
      modifies this`chans
      ensures chans == old(chans)[c := old(chans)[c].(open := false)]
    {
      chans := chans[c := chans[c].(open := false)];
    }

    // The closure returned by Subscribe call k; also run when that call's context is cancelled.
    method Unsubscribe(k: nat)
      requires Valid(State()) && k < |closures|
      modifies this
      ensures Valid(State()) && State() == Unsubscribed(old(State()), k)
    {
      UnsubscribedValid(State(), k);
      if closures[k].used {
        assert closures == closures[k := closures[k].(used := true)];
        return;
      }
      closures := closures[k := closures[k].(used := true)];
      var postID, id := closures[k].postID, closures[k].id;
      if postID !in subscribers {
        assert State() == Unsubscribed(old(State()), k);
        return;
      }
      if id !in subscribers[postID] {
        assert State() == Unsubscribed(old(State()), k);
        return;
      }
      var c := subscribers[postID][id];
      assert Lookup(old(State()), postID, id) == Some(c) && c == k;
      subscribers := subscribers[postID := subscribers[postID] - {id}];
      CloseChan(c);
      if subscribers[postID] == map[] {
        subscribers := subscribers - {postID};
      }
      assert State() == Unsubscribed(old(State()), k);
    }

    // The locked half of PublishCommentAdded and dispatch: the inner map is read in any order.
    method Snapshot(postID: PostID) returns (targets: seq<ChanRef>)
      requires Valid(State())
      ensures IsSnapshot(State(), postID, targets)
    {
      ghost var order;
      targets, order := InAnyOrder(if postID in subscribers then subscribers[postID] else map[]);
      SnapshotTaken(State(), postID, targets, order);
    }

    // One round of the unlocked half. panicked: the channel had been closed.
    method Send(c: ChanRef, event: Event) returns (panicked: bool)
      requires Valid(State()) && c < |chans|
      modifies this`chans
      ensures Valid(State()) && panicked == !old(chans)[c].open
      ensures State() == if panicked then old(State()) else Sent(old(State()), c, event)
    {
      if !chans[c].open {
        return true;
      }
      if |chans[c].buffer| < bufferSize {
        SentValid(State(), c, event);
        chans := chans[c := chans[c].(buffer := chans[c].buffer + [event])];
      }
      return false;
    }

    // The loops shared by both Close methods. No channel is closed twice.
    method Sweep()
      requires Valid(State())
      modifies this
      ensures Valid(State()) && State() == Swept(old(State()))
    {
      while subscribers != map[]
        invariant Consistent(State()) && OnlyClosed(old(State()), State())
        decreases subscribers.Keys
      {
        var postID :| postID in subscribers;
        SweepPost(postID);
        DropEmptyKeeps(State(), postID);
        subscribers := subscribers - {postID};
      }
      NoneOpen(State());
      assert chans == Swept(old(State())).chans;
    }

    method SweepPost(postID: PostID)
      requires Consistent(State()) && postID in subscribers
      modifies this
      ensures Consistent(State()) && OnlyClosed(old(State()), State())
      ensures subscribers.Keys == old(subscribers).Keys && subscribers[postID] == map[]
    {
      while subscribers[postID] != map[]
        invariant Consistent(State()) && OnlyClosed(old(State()), State())
        invariant postID in subscribers && subscribers.Keys == old(subscribers).Keys
        decreases subscribers[postID].Keys
      {
        var id :| id in subscribers[postID];
        CloseOneKeeps(State(), postID, id);
        CloseChan(subscribers[postID][id]);
        subscribers := subscribers[postID := subscribers[postID] - {id}];
      }
    }

    // First critical section of the PostgreSQL Close, which ends with Sweep; a later call returns at once.
    method MarkClosed() returns (already: bool)
      requires Valid(State())
      modifies this`closed
      ensures already == old(closed) && Valid(State()) && State() == old(State()).(closed := true)
    {
      if closed {
        return true;
      }
      closed := true;
      SameMaps(old(State()), State());
      assert OpenIffRegistered(State());
      return false;
    }

    // Close of the memory bus.
    method Close()
      requires Valid(State())
      modifies this
      ensures Valid(State()) && State() == Closed(old(State()))
      ensures closed && (!old(closed) ==> subscribers == map[])
    {
      if closed {
        return;
      }
      Sweep();
      closed := true;
    }
  }

  // Nothing has changed but the maps, and that some channels were closed.
  predicate OnlyClosed(was: BusState, now: BusState)
  {
    && now == was.(subscribers := now.subscribers, chans := now.chans)
    && |was.chans| == |now.chans|
    && forall c :: 0 <= c < |was.chans| ==> now.chans[c] == was.chans[c].(open := now.chans[c].open)
  }

  lemma NoneOpen(s: BusState)
    requires Consistent(s) && s.subscribers == map[]
    ensures forall c :: 0 <= c < |s.chans| ==> !s.chans[c].open
  {
  }

  lemma SentValid(s: BusState, c: ChanRef, event: Event)
    requires Valid(s) && c < s.nextID && s.chans[c].open
    ensures Valid(Sent(s, c, event))
  {
    SameMaps(s, Sent(s, c, event));
    assert OpenIffRegistered(Sent(s, c, event));
  }

  lemma ReceivedValid(s: BusState, c: ChanRef)
    requires Valid(s) && c < s.nextID && s.chans[c].buffer != []
    ensures Valid(Received(s, c))
  {
    SameMaps(s, Received(s, c));
    assert OpenIffRegistered(Received(s, c));
  }

  lemma CloseOneKeeps(s: BusState, postID: PostID, id: nat)
    requires Consistent(s) && postID in s.subscribers && id in s.subscribers[postID]
    ensures s.subscribers[postID][id] == id - 1 < |s.chans| && s.chans[id - 1].open
    ensures Consistent(s.(
      subscribers := s.subscribers[postID := s.subscribers[postID] - {id}],
      chans := s.chans[id - 1 := s.chans[id - 1].(open := false)]))
  {
    assert Lookup(s, postID, id) == Some(id - 1);
    var s' := s.(
      subscribers := s.subscribers[postID := s.subscribers[postID] - {id}],
      chans := s.chans[id - 1 := s.chans[id - 1].(open := false)]);
    assert forall p, i {:trigger Lookup(s', p, i)} ::
      Lookup(s', p, i) == if p == postID && i == id then None else Lookup(s, p, i);
    assert OwnIds(s');
    assert OpenIffRegistered(s');
  }

  lemma DropEmptyKeeps(s: BusState, postID: PostID)
    requires Consistent(s) && postID in s.subscribers && s.subscribers[postID] == map[]
    ensures Consistent(s.(subscribers := s.subscribers - {postID}))
  {
    var s' := s.(subscribers := s.subscribers - {postID});
    assert forall p, i {:trigger Lookup(s', p, i)} :: Lookup(s', p, i) == Lookup(s, p, i);
    assert OwnIds(s');
    assert OpenIffRegistered(s');
  }
}

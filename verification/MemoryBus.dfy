/** The memory bus under any interleaving. A publish takes its targets under the lock and sends after releasing it,
    one channel at a time, so other steps run in between. */
module MemoryBus {
  import opened Domain
  import opened EventBus

  // A PublishCommentAdded call past its critical section: the sends it still has to do. sent is history: the channels
  // sent to, each with the length of its buffer at that send.
  datatype Pending = Pending(event: Event, targets: seq<ChanRef>, sent: map<ChanRef, nat>)

  // pubs holds every publish call ever made. aborted: those whose send met a closed channel. The panic ends that call
  // alone: the server recovers from it, and everything else goes on.
  datatype Sys = Sys(bus: BusState, pubs: map<nat, Pending>, aborted: set<nat>)

  datatype Label =
    | Subscribe(postID: PostID)
    | Unsubscribe(k: nat)  // the closure of Subscribe call k, called or run by its cancelled context
    | Close
    | Snapshot(pub: nat, event: Event, targets: seq<ChanRef>)
    | Send(pub: nat)
    | Receive(c: ChanRef)

  ghost predicate Next(s: Sys, l: Label, s': Sys)
  {
    match l
    case Subscribe(postID) => s' == if s.bus.closed then s else s.(bus := Subscribed(s.bus, postID))
    case Unsubscribe(k) => k < |s.bus.closures| == |s.bus.chans| && s' == s.(bus := Unsubscribed(s.bus, k))
    case Close => s' == s.(bus := Closed(s.bus))
    case Snapshot(pub, event, targets) =>
      && pub !in s.pubs && IsSnapshot(s.bus, event.postID, targets)
      && s' == s.(pubs := s.pubs[pub := Pending(event, targets, map[])])
    case Send(pub) => pub in s.pubs && pub !in s.aborted && s.pubs[pub].targets != [] && SendNext(s, pub, s')
    case Receive(c) => c < |s.bus.chans| && s.bus.chans[c].buffer != [] && s' == s.(bus := Received(s.bus, c))
  }

  ghost predicate SendNext(s: Sys, pub: nat, s': Sys)
    requires pub in s.pubs && s.pubs[pub].targets != []
  {
    var p := s.pubs[pub];
    var c := p.targets[0];
    c < |s.bus.chans| &&
    if s.bus.chans[c].open
    then s' == s.(
      bus := Sent(s.bus, c, p.event),
      pubs := s.pubs[pub := p.(targets := p.targets[1..], sent := p.sent[c := |s.bus.chans[c].buffer|])])
    else s' == s.(aborted := s.aborted + {pub})
  }

  ghost predicate Initial(s: Sys) { exists bufferSize :: s == Sys(New(bufferSize), map[], {}) }

  ghost predicate IsRun(states: seq<Sys>, labels: seq<Label>)
  {
    && |states| == |labels| + 1
    && Initial(states[0])
    && forall i {:trigger labels[i]} :: 0 <= i < |labels| ==> Next(states[i], labels[i], states[i + 1])
  }

  // A publish sends to channels of its event's post only.
  ghost predicate PendingOwnPost(s: Sys)
    requires |s.bus.chans| == |s.bus.closures|
  {
    forall pub, i :: pub in s.pubs && 0 <= i < |s.pubs[pub].targets| ==>
      s.pubs[pub].targets[i] < |s.bus.chans|
      && s.bus.closures[s.pubs[pub].targets[i]].postID == s.pubs[pub].event.postID
  }

  // All that a channel holds or has given out is about its own post.
  ghost predicate HoldsPost(ch: Chan, postID: PostID)
  {
    forall e :: e in ch.buffer + ch.received ==> e.postID == postID
  }

  ghost predicate OwnPost(s: Sys)
    requires |s.bus.chans| == |s.bus.closures|
  {
    PendingOwnPost(s) && forall c :: 0 <= c < |s.bus.chans| ==> HoldsPost(s.bus.chans[c], s.bus.closures[c].postID)
  }

  // An aborted publish stands at a target that is closed, and stays there.
  ghost predicate AbortedAtClosed(s: Sys)
  {
    forall pub :: pub in s.aborted ==>
      && pub in s.pubs && s.pubs[pub].targets != []
      && s.pubs[pub].targets[0] < |s.bus.chans| && !s.bus.chans[s.pubs[pub].targets[0]].open
  }

  /** The invariant: subscription ids are not reused, open channels are exactly the registered ones, buffers are
      bounded, no inner map is empty, and a closed bus has no subscriber. */
  ghost predicate Inv(s: Sys)
  {
    Valid(s.bus) && OwnPost(s) && AbortedAtClosed(s) && (s.bus.closed ==> s.bus.subscribers == map[])
  }

  lemma InitialInv(s: Sys)
    requires Initial(s)
    ensures Inv(s)
  {
  }

  lemma StepValid(s: Sys, l: Label, s': Sys)
    requires Inv(s) && Next(s, l, s')
    ensures Valid(s'.bus) && (s'.bus.closed ==> s'.bus.subscribers == map[])
  {
    match l
    case Subscribe(postID) => if !s.bus.closed { SubscribedValid(s.bus, postID); }
    case Unsubscribe(k) => UnsubscribedValid(s.bus, k);
    case Close => if !s.bus.closed { ClosedValid(s.bus); }
    case Snapshot(_, _, _) =>
    case Send(pub) => if pub !in s'.aborted { SentValid(s.bus, s.pubs[pub].targets[0], s.pubs[pub].event); }
    case Receive(c) => ReceivedValid(s.bus, c);
  }

  lemma ClosedValid(s: BusState)
    requires Valid(s)
    ensures Valid(Closed(s))
  {
    SweptValid(s);
    if !s.closed {
      SameMaps(Swept(s), Closed(s));
      assert OpenIffRegistered(Closed(s));
    }
  }

  lemma SnapshotOwnPost(s: Sys, pub: nat, event: Event, targets: seq<ChanRef>, s': Sys)
    requires Inv(s) && Next(s, Snapshot(pub, event, targets), s')
    ensures OwnPost(s')
  {
    forall p, i | p in s'.pubs && 0 <= i < |s'.pubs[p].targets|
      ensures s'.pubs[p].targets[i] < |s.bus.chans|
           && s.bus.closures[s'.pubs[p].targets[i]].postID == s'.pubs[p].event.postID
    {
      if p == pub { assert targets[i] in targets; }
    }
  }

  lemma SendOwnPost(s: Sys, pub: nat, s': Sys)
    requires Inv(s) && Next(s, Send(pub), s') && pub !in s'.aborted
    ensures OwnPost(s')
  {
    var c := s.pubs[pub].targets[0];
    SentHoldsPost(s.bus.chans[c], s'.bus.chans[c], s.bus.closures[c].postID, s.pubs[pub].event);
    SendPendingOwnPost(s, pub, s');
    forall d | 0 <= d < |s'.bus.chans| ensures HoldsPost(s'.bus.chans[d], s'.bus.closures[d].postID) {
      assert HoldsPost(s.bus.chans[d], s.bus.closures[d].postID);
    }
  }

  lemma SentHoldsPost(ch: Chan, ch': Chan, postID: PostID, event: Event)
    requires HoldsPost(ch, postID) && event.postID == postID && ch'.received == ch.received
    requires ch'.buffer == ch.buffer || ch'.buffer == ch.buffer + [event]
    ensures HoldsPost(ch', postID)
  {
    forall e | e in ch'.buffer + ch'.received ensures e.postID == postID {
      assert e == event || e in ch.buffer + ch.received;
    }
  }

  lemma SendPendingOwnPost(s: Sys, pub: nat, s': Sys)
    requires |s.bus.chans| == |s.bus.closures| && PendingOwnPost(s) && Next(s, Send(pub), s') && pub !in s'.aborted
    ensures |s'.bus.chans| == |s'.bus.closures| && PendingOwnPost(s')
  {
  }

  lemma ReceiveOwnPost(s: Sys, c: ChanRef, s': Sys)
    requires Inv(s) && Next(s, Receive(c), s')
    ensures OwnPost(s')
  {
    assert HoldsPost(s.bus.chans[c], s.bus.closures[c].postID);
    forall e | e in s'.bus.chans[c].buffer + s'.bus.chans[c].received ensures e.postID == s.bus.closures[c].postID {
      assert e in s.bus.chans[c].buffer + s.bus.chans[c].received;
    }
  }

  // Subscribing, unsubscribing and closing change no buffer and no post.
  lemma OtherOwnPost(s: Sys, l: Label, s': Sys)
    requires Inv(s) && Next(s, l, s') && (l.Subscribe? || l.Unsubscribe? || l.Close?)
    ensures |s'.bus.chans| == |s'.bus.closures| && OwnPost(s')
  {
    forall c | 0 <= c < |s.bus.chans|
      ensures s'.bus.chans[c].buffer == s.bus.chans[c].buffer && s'.bus.chans[c].received == s.bus.chans[c].received
      ensures s'.bus.closures[c].postID == s.bus.closures[c].postID
    {
      assert HoldsPost(s.bus.chans[c], s.bus.closures[c].postID);
    }
  }

  lemma StepOwnPost(s: Sys, l: Label, s': Sys)
    requires Inv(s) && Next(s, l, s')
    ensures |s'.bus.chans| == |s'.bus.closures| && OwnPost(s')
  {
    match l
    case Snapshot(pub, event, targets) => SnapshotOwnPost(s, pub, event, targets, s');
    case Send(pub) => if pub !in s'.aborted { SendOwnPost(s, pub, s'); }
    case Receive(c) => ReceiveOwnPost(s, c, s');
    case _ => OtherOwnPost(s, l, s');
  }

  lemma StepInv(s: Sys, l: Label, s': Sys)
    requires Inv(s) && Next(s, l, s')
    ensures Inv(s')
  {
    StepValid(s, l, s');
    StepOwnPost(s, l, s');
    StepAborted(s, l, s');
  }

  lemma StepAborted(s: Sys, l: Label, s': Sys)
    requires Inv(s) && Next(s, l, s')
    ensures AbortedAtClosed(s')
    ensures forall pub :: pub in s.aborted ==> pub in s'.aborted && s'.pubs[pub] == s.pubs[pub]
  {
    forall pub | pub in s.aborted
      ensures s.pubs[pub].targets[0] < |s'.bus.chans| && !s'.bus.chans[s.pubs[pub].targets[0]].open
    {
      StepOpen(s, l, s', s.pubs[pub].targets[0]);
    }
  }

  // Events enter a channel only from a publish, and a publish keeps its event.
  lemma EventsComeFromPublishes(s: Sys, l: Label, s': Sys, c: ChanRef, e: Event)
    requires Inv(s) && Next(s, l, s') && c < |s'.bus.chans| && e in s'.bus.chans[c].buffer + s'.bus.chans[c].received
    ensures (c < |s.bus.chans| && e in s.bus.chans[c].buffer + s.bus.chans[c].received)
         || (l.Send? && l.pub in s.pubs && s.pubs[l.pub].event == e)
  {
    if l.Receive? && c == l.c {
      assert e in s.bus.chans[c].buffer + s.bus.chans[c].received;
    }
  }

  lemma SnapshotEffect(s: Sys, pub: nat, event: Event, targets: seq<ChanRef>, s': Sys)
    requires Next(s, Snapshot(pub, event, targets), s')
    ensures pub !in s.pubs && s'.bus == s.bus && s'.aborted == s.aborted
    ensures s'.pubs == s.pubs[pub := Pending(event, targets, map[])]
  {
  }

  lemma PublishesKeepEvents(s: Sys, l: Label, s': Sys)
    requires Next(s, l, s') && !l.Snapshot?
    ensures s'.pubs.Keys == s.pubs.Keys
    ensures forall pub :: pub in s.pubs ==> s'.pubs[pub].event == s.pubs[pub].event
  {
  }

  lemma {:induction false} RunInv(states: seq<Sys>, labels: seq<Label>, i: nat)
    requires IsRun(states, labels) && i < |states|
    ensures Inv(states[i])
  {
    if i == 0 {
      InitialInv(states[0]);
    } else {
      RunInv(states, labels, i - 1);
      StepInv(states[i - 1], labels[i - 1], states[i]);
    }
  }

  // The steps that close channel c, when it is still open.
  predicate Closes(l: Label, c: ChanRef) { l == Unsubscribe(c) || l.Close? }

  lemma StepOpen(s: Sys, l: Label, s': Sys, c: ChanRef)
    requires Inv(s) && Next(s, l, s') && c < |s.bus.chans|
    ensures c < |s'.bus.chans|
    ensures s'.bus.chans[c].open <==> s.bus.chans[c].open && !Closes(l, c)
    ensures s'.bus.closures[c].postID == s.bus.closures[c].postID && s'.bus.closures[c].id == s.bus.closures[c].id
  {
    match l
    case Subscribe(_) =>
    case Unsubscribe(k) => UnsubscribeOpen(s.bus, k, c);
    case Close => if s.bus.closed { NoneOpen(s.bus); }
    case Snapshot(_, _, _) =>
    case Send(_) =>
    case Receive(_) =>
  }

  // Between two moments a channel stays open exactly as long as no step closes it, and is never opened again.
  lemma {:induction false} OpenBetween(states: seq<Sys>, labels: seq<Label>, i: nat, j: nat, c: ChanRef)
    requires IsRun(states, labels) && i <= j < |states| && c < |states[i].bus.chans|
    ensures c < |states[j].bus.chans| == |states[j].bus.closures| && c < |states[i].bus.closures|
    ensures states[j].bus.chans[c].open <==>
      states[i].bus.chans[c].open && forall k :: i <= k < j ==> !Closes(labels[k], c)
    ensures states[j].bus.closures[c].id == states[i].bus.closures[c].id == c + 1
    ensures states[j].bus.closures[c].postID == states[i].bus.closures[c].postID
    decreases j
  {
    OwnIdAt(states, labels, i, c);
    if i < j {
      OpenBetween(states, labels, i, j - 1, c);
      OpenAt(states, labels, j - 1, c);
    }
  }

  lemma OpenAt(states: seq<Sys>, labels: seq<Label>, i: nat, c: ChanRef)
    requires IsRun(states, labels) && i < |labels| && c < |states[i].bus.chans| == |states[i].bus.closures|
    ensures c < |states[i + 1].bus.chans| == |states[i + 1].bus.closures|
    ensures states[i + 1].bus.chans[c].open <==> states[i].bus.chans[c].open && !Closes(labels[i], c)
    ensures states[i + 1].bus.closures[c].postID == states[i].bus.closures[c].postID
    ensures states[i + 1].bus.closures[c].id == states[i].bus.closures[c].id
  {
    RunInv(states, labels, i);
    RunInv(states, labels, i + 1);
    StepOpen(states[i], labels[i], states[i + 1], c);
  }

  lemma OwnIdAt(states: seq<Sys>, labels: seq<Label>, i: nat, c: ChanRef)
    requires IsRun(states, labels) && i < |states| && c < |states[i].bus.chans|
    ensures c < |states[i].bus.closures| == |states[i].bus.chans| && states[i].bus.closures[c].id == c + 1
  {
    RunInv(states, labels, i);
  }

  /** A closed bus stays closed: from a Close step on, no channel is made any more, none is open and none registered. */
  lemma {:induction false} ClosedForGood(states: seq<Sys>, labels: seq<Label>, i: nat, j: nat)
    requires IsRun(states, labels) && i < j < |states| && labels[i].Close?
    ensures states[j].bus.closed && states[j].bus.subscribers == map[]
    ensures |states[j].bus.chans| == |states[i].bus.chans|
    ensures forall c :: 0 <= c < |states[j].bus.chans| ==> !states[j].bus.chans[c].open
    decreases j
  {
    if j > i + 1 { ClosedForGood(states, labels, i, j - 1); }
    ClosedAt(states, labels, j - 1);
    NoneOpenAt(states, labels, j);
  }

  lemma ClosedAt(states: seq<Sys>, labels: seq<Label>, i: nat)
    requires IsRun(states, labels) && i < |labels| && (labels[i].Close? || states[i].bus.closed)
    ensures states[i + 1].bus.closed && |states[i + 1].bus.chans| == |states[i].bus.chans|
  {
    assert Next(states[i], labels[i], states[i + 1]);
  }

  lemma NoneOpenAt(states: seq<Sys>, labels: seq<Label>, i: nat)
    requires IsRun(states, labels) && i < |states| && states[i].bus.closed
    ensures states[i].bus.subscribers == map[]
    ensures forall c :: 0 <= c < |states[i].bus.chans| ==> !states[i].bus.chans[c].open
  {
    RunInv(states, labels, i);
    NoneOpen(states[i].bus);
  }

  // What a publish still has to send comes from its snapshot, in the order taken.
  lemma {:induction false} PendingFrom(states: seq<Sys>, labels: seq<Label>, i: nat, j: nat)
    requires IsRun(states, labels) && i < j < |states| && labels[i].Snapshot?
    ensures var pub := labels[i].pub;
      pub in states[j].pubs && states[j].pubs[pub].event == labels[i].event
      && |states[j].pubs[pub].targets| <= |labels[i].targets|
      && states[j].pubs[pub].targets == labels[i].targets[|labels[i].targets| - |states[j].pubs[pub].targets|..]
    decreases j
  {
    if j == i + 1 {
      assert Next(states[i], labels[i], states[i + 1]);
    } else {
      PendingFrom(states, labels, i, j - 1);
      assert Next(states[j - 1], labels[j - 1], states[j]);
    }
  }

  /** A publish takes as targets exactly the channels that are open for its event's post, each once. */
  lemma TargetsExact(states: seq<Sys>, labels: seq<Label>, i: nat, c: ChanRef)
    requires IsRun(states, labels) && i < |labels| && labels[i].Snapshot?
    ensures |states[i].bus.chans| == |states[i].bus.closures|
    ensures c in labels[i].targets <==>
      c < |states[i].bus.chans| && states[i].bus.chans[c].open
      && states[i].bus.closures[c].postID == labels[i].event.postID
  {
    RunInv(states, labels, i);
    assert Next(states[i], labels[i], states[i + 1]);
    SnapshotExact(states[i].bus, labels[i].event.postID, labels[i].targets);
  }

  lemma TargetOpen(states: seq<Sys>, labels: seq<Label>, i: nat, c: ChanRef)
    requires IsRun(states, labels) && i < |labels| && labels[i].Snapshot? && c in labels[i].targets
    ensures c < |states[i].bus.chans| && states[i].bus.chans[c].open && !Closes(labels[i], c)
  {
    RunInv(states, labels, i);
    assert Next(states[i], labels[i], states[i + 1]);
  }

  /** Every target that a publish still has to send to is registered and open, or an unsubscribe or Close step that ran
      after the snapshot has closed it. */
  lemma PendingTargets(states: seq<Sys>, labels: seq<Label>, i: nat, j: nat, c: ChanRef)
    requires IsRun(states, labels) && i < j < |states| && labels[i].Snapshot? && c in labels[i].targets
    ensures c < |states[j].bus.chans| == |states[j].bus.closures|
    ensures states[j].bus.chans[c].open <==> Registered(states[j].bus, c)
    ensures Registered(states[j].bus, c) <==> forall k :: i < k < j ==> !Closes(labels[k], c)
  {
    TargetOpen(states, labels, i, c);
    OpenBetween(states, labels, i, j, c);
    RunInv(states, labels, j);
  }

  lemma SendOutcome(states: seq<Sys>, labels: seq<Label>, j: nat, pub: nat)
    requires IsRun(states, labels) && j < |labels| && labels[j] == Send(pub)
    ensures pub in states[j].pubs && states[j].pubs[pub].targets != []
    ensures states[j].pubs[pub].targets[0] < |states[j].bus.chans|
    ensures pub in states[j + 1].aborted <==> !states[j].bus.chans[states[j].pubs[pub].targets[0]].open
  {
    assert Next(states[j], labels[j], states[j + 1]);
  }

  /** The exact characterisation: the send of a publish panics if and only if, between its snapshot and that send, its
      target's unsubscribe closure ran or the bus was closed. */
  lemma SendPanicsIff(states: seq<Sys>, labels: seq<Label>, i: nat, j: nat, pub: nat)
    requires IsRun(states, labels) && i < j < |labels|
    requires labels[i].Snapshot? && labels[i].pub == pub && labels[j] == Send(pub)
    ensures pub in states[j].pubs && states[j].pubs[pub].targets != []
    ensures states[j].pubs[pub].targets[0] in labels[i].targets
    ensures pub in states[j + 1].aborted <==>
      exists k :: i < k < j && Closes(labels[k], states[j].pubs[pub].targets[0])
  {
    SendOutcome(states, labels, j, pub);
    PendingFrom(states, labels, i, j);
    var targets, rest := labels[i].targets, states[j].pubs[pub].targets;
    assert rest[0] == targets[|targets| - |rest|];
    TargetOpen(states, labels, i, rest[0]);
    OpenBetween(states, labels, i, j, rest[0]);
  }

  // A run in which it does: subscribe, snapshot, unsubscribe, send.
  lemma SendCanPanic(postID: PostID, event: Event)
    requires event.postID == postID
    ensures exists states: seq<Sys> ::
      IsRun(states, [Subscribe(postID), Snapshot(0, event, [0]), Unsubscribe(0), Send(0)]) && 0 in states[4].aborted
  {
    var s0 := Sys(New(0), map[], {});
    var s1 := s0.(bus := Subscribed(s0.bus, postID));
    OneSubscriber(postID);
    var s2 := s1.(pubs := map[0 := Pending(event, [0], map[])]);
    var s3 := s2.(bus := Unsubscribed(s2.bus, 0));
    var s4 := s3.(aborted := {0});
    var states := [s0, s1, s2, s3, s4];
    var labels := [Subscribe(postID), Snapshot(0, event, [0]), Unsubscribe(0), Send(0)];
    assert Next(s0, labels[0], s1);
    assert s1.pubs[0 := Pending(event, [0], map[])] == s2.pubs;
    assert Next(s1, labels[1], s2);
    assert Next(s2, labels[2], s3);
    assert s3.aborted + {0} == s4.aborted;
    assert SendNext(s3, 0, s4);
    assert Next(s3, labels[3], s4);
    assert IsRun(states, labels);
  }

  // For contrast, a publish that held the read lock across its sends: one step, nothing in between.
  function SendAll(s: BusState, targets: seq<ChanRef>, event: Event): BusState
    requires forall i :: 0 <= i < |targets| ==> targets[i] < |s.chans| && s.chans[targets[i]].open
    decreases |targets|
  {
    if targets == [] then s else SendAll(Sent(s, targets[0], event), targets[1..], event)
  }

  // It would never panic, and every subscriber of the post gets the event unless its buffer is full.
  lemma {:induction false} LockedPublishDelivers(s: BusState, targets: seq<ChanRef>, event: Event, c: ChanRef)
    requires forall i :: 0 <= i < |targets| ==> targets[i] < |s.chans| && s.chans[targets[i]].open
    requires forall i, j :: 0 <= i < j < |targets| ==> targets[i] != targets[j]
    requires c < |s.chans|
    ensures |SendAll(s, targets, event).chans| == |s.chans|
    ensures SendAll(s, targets, event).chans[c] ==
      if c in targets && |s.chans[c].buffer| < s.bufferSize then s.chans[c].(buffer := s.chans[c].buffer + [event])
      else s.chans[c]
    decreases |targets|
  {
    if targets != [] {
      var s' := Sent(s, targets[0], event);
      assert SendAll(s, targets, event) == SendAll(s', targets[1..], event);
      LockedPublishDelivers(s', targets[1..], event, c);
      assert c in targets <==> c == targets[0] || c in targets[1..];
    }
  }

  lemma LockedPublishIsSafe(s: BusState, targets: seq<ChanRef>, postID: PostID)
    requires Valid(s) && IsSnapshot(s, postID, targets)
    ensures forall i :: 0 <= i < |targets| ==> targets[i] < |s.chans| && s.chans[targets[i]].open
  {
    forall i | 0 <= i < |targets| ensures targets[i] < |s.chans| && s.chans[targets[i]].open {
      assert targets[i] in targets;
    }
  }

  /** What the two-phase publish comes to when nothing runs between its snapshot and its last send: the locked publish,
      which never panics. */
  lemma UndisturbedPublish(states: seq<Sys>, labels: seq<Label>, i: nat, n: nat)
    requires IsRun(states, labels) && i + n < |labels| && labels[i].Snapshot? && n == |labels[i].targets|
    requires forall k :: i < k <= i + n ==> labels[k] == Send(labels[i].pub)
    ensures forall t :: 0 <= t < n ==>
      labels[i].targets[t] < |states[i].bus.chans| && states[i].bus.chans[labels[i].targets[t]].open
    ensures states[i + n + 1].bus == SendAll(states[i].bus, labels[i].targets, labels[i].event)
    ensures labels[i].pub in states[i + n + 1].pubs && states[i + n + 1].pubs[labels[i].pub].targets == []
  {
    SnapshotAt(states, labels, i);
    SendsInARow(states, labels, i + 1, n, labels[i].pub);
  }

  lemma SnapshotAt(states: seq<Sys>, labels: seq<Label>, i: nat)
    requires IsRun(states, labels) && i < |labels| && labels[i].Snapshot?
    ensures states[i + 1].bus == states[i].bus
    ensures labels[i].pub in states[i + 1].pubs
    ensures states[i + 1].pubs[labels[i].pub] == Pending(labels[i].event, labels[i].targets, map[])
    ensures forall t :: 0 <= t < |labels[i].targets| ==>
      labels[i].targets[t] < |states[i].bus.chans| && states[i].bus.chans[labels[i].targets[t]].open
  {
    RunInv(states, labels, i);
    assert Next(states[i], labels[i], states[i + 1]);
    LockedPublishIsSafe(states[i].bus, labels[i].targets, labels[i].event.postID);
  }

  lemma {:induction false} SendsInARow(states: seq<Sys>, labels: seq<Label>, i: nat, n: nat, pub: nat)
    requires IsRun(states, labels) && i + n < |states| && pub in states[i].pubs && n == |states[i].pubs[pub].targets|
    requires forall k :: i <= k < i + n ==> labels[k] == Send(pub)
    requires forall t :: 0 <= t < n ==>
      states[i].pubs[pub].targets[t] < |states[i].bus.chans| && states[i].bus.chans[states[i].pubs[pub].targets[t]].open
    ensures states[i + n].bus == SendAll(states[i].bus, states[i].pubs[pub].targets, states[i].pubs[pub].event)
    ensures pub in states[i + n].pubs && states[i + n].pubs[pub].targets == []
    decreases n
  {
    if n > 0 {
      SendAtOpen(states, labels, i, pub);
      SendsInARow(states, labels, i + 1, n - 1, pub);
    }
  }

  lemma SendAtOpen(states: seq<Sys>, labels: seq<Label>, i: nat, pub: nat)
    requires IsRun(states, labels) && i < |labels| && labels[i] == Send(pub)
    requires pub in states[i].pubs && states[i].pubs[pub].targets != []
    requires var c := states[i].pubs[pub].targets[0]; c < |states[i].bus.chans| && states[i].bus.chans[c].open
    ensures var p := states[i].pubs[pub];
      && states[i + 1].bus == Sent(states[i].bus, p.targets[0], p.event)
      && pub in states[i + 1].pubs
      && states[i + 1].pubs[pub].targets == p.targets[1..] && states[i + 1].pubs[pub].event == p.event
  {
    assert Next(states[i], labels[i], states[i + 1]);
  }
}

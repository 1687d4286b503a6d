/** Who gets what from the memory bus: the account of every publish, taken in two phases, and of every channel. */
module MemoryDelivery {
  import opened EventBus
  import opened MemoryBus

  // All events that a channel has ever held, in order.
  function All(ch: Chan): seq<Event> { ch.received + ch.buffer }

  // The send of publish p to channel c found room.
  predicate Got(p: Pending, c: ChanRef, bufferSize: nat) { c in p.sent && p.sent[c] < bufferSize }

  // A publish sends to each of its targets once: none twice, none already sent to.
  ghost predicate EachOnce(p: Pending)
  {
    && (forall i, j :: 0 <= i < j < |p.targets| ==> p.targets[i] != p.targets[j])
    && (forall i :: 0 <= i < |p.targets| ==> p.targets[i] !in p.sent)
  }

  // Every channel sent to has the event, unless its buffer was full at that send.
  ghost predicate SentHolds(bus: BusState, p: Pending)
  {
    forall c :: c in p.sent ==>
      && c < |bus.chans| && p.sent[c] <= bus.bufferSize
      && (p.sent[c] < bus.bufferSize ==> p.event in All(bus.chans[c]))
  }

  // What a channel has held was put there by a publish that found room.
  ghost predicate FromPublishes(s: Sys, c: ChanRef)
    requires c < |s.bus.chans|
  {
    forall e :: e in All(s.bus.chans[c]) ==>
      exists p :: p in s.pubs && s.pubs[p].event == e && Got(s.pubs[p], c, s.bus.bufferSize)
  }

  ghost predicate Account(s: Sys)
  {
    && (forall p :: p in s.pubs ==> EachOnce(s.pubs[p]) && SentHolds(s.bus, s.pubs[p]))
    && (forall c :: 0 <= c < |s.bus.chans| ==> FromPublishes(s, c))
  }

  // Channels keep what they have held; only a send adds to it, at the end.
  lemma StepKeeps(s: Sys, l: Label, s': Sys, c: ChanRef)
    requires Inv(s) && Next(s, l, s') && c < |s.bus.chans|
    ensures c < |s'.bus.chans| && s'.bus.bufferSize == s.bus.bufferSize
    ensures All(s'.bus.chans[c]) == All(s.bus.chans[c]) +
      if PutsInto(s, l, c) then [s.pubs[l.pub].event] else []
  {
    match l
    case Send(p) => SendKeeps(s, p, s', c);
    case Receive(d) => ReceiveKeeps(s, d, s', c);
    case _ =>
  }

  lemma SendKeeps(s: Sys, p: nat, s': Sys, c: ChanRef)
    requires Next(s, Send(p), s') && c < |s.bus.chans|
    ensures c < |s'.bus.chans| && s'.bus.bufferSize == s.bus.bufferSize
    ensures All(s'.bus.chans[c]) == All(s.bus.chans[c]) + if PutsInto(s, Send(p), c) then [s.pubs[p].event] else []
  {
  }

  lemma ReceiveKeeps(s: Sys, d: ChanRef, s': Sys, c: ChanRef)
    requires Next(s, Receive(d), s') && c < |s.bus.chans|
    ensures c < |s'.bus.chans| && s'.bus.bufferSize == s.bus.bufferSize && All(s'.bus.chans[c]) == All(s.bus.chans[c])
  {
  }

  // The step is a send to c that finds it open and with room.
  predicate PutsInto(s: Sys, l: Label, c: ChanRef)
    requires c < |s.bus.chans|
  {
    && l.Send? && l.pub in s.pubs && s.pubs[l.pub].targets != [] && s.pubs[l.pub].targets[0] == c
    && s.bus.chans[c].open && |s.bus.chans[c].buffer| < s.bus.bufferSize
  }

  // The step of one publish: nothing, or its next send, which notes the length of the buffer it meets.
  lemma StepPending(s: Sys, l: Label, s': Sys, p: nat)
    requires Inv(s) && Next(s, l, s') && p in s.pubs
    ensures p in s'.pubs
    ensures s'.pubs[p] == s.pubs[p] || (l == Send(p) && TookNext(s, p, s'))
  {
  }

  ghost predicate TookNext(s: Sys, p: nat, s': Sys)
    requires p in s.pubs
  {
    && s.pubs[p].targets != [] && s.pubs[p].targets[0] < |s.bus.chans| && s.bus.chans[s.pubs[p].targets[0]].open
    && var c := s.pubs[p].targets[0];
       && s'.bus == Sent(s.bus, c, s.pubs[p].event)
       && p in s'.pubs
       && s'.pubs[p] == s.pubs[p].(
            targets := s.pubs[p].targets[1..], sent := s.pubs[p].sent[c := |s.bus.chans[c].buffer|])
  }

  lemma StepSentHolds(s: Sys, l: Label, s': Sys, p: nat)
    requires Inv(s) && Next(s, l, s') && p in s.pubs && SentHolds(s.bus, s.pubs[p])
    ensures p in s'.pubs && SentHolds(s'.bus, s'.pubs[p])
  {
    StepPending(s, l, s', p);
    forall c | c in s'.pubs[p].sent
      ensures c < |s'.bus.chans| && s'.pubs[p].sent[c] <= s'.bus.bufferSize
      ensures s'.pubs[p].sent[c] < s'.bus.bufferSize ==> s'.pubs[p].event in All(s'.bus.chans[c])
    {
      StepKeeps(s, l, s', c);
    }
  }

  lemma StepEachOnce(s: Sys, l: Label, s': Sys, p: nat)
    requires Inv(s) && Next(s, l, s') && p in s.pubs && EachOnce(s.pubs[p])
    ensures p in s'.pubs && EachOnce(s'.pubs[p])
  {
    StepPending(s, l, s', p);
  }

  lemma StepGot(s: Sys, l: Label, s': Sys, p: nat, c: ChanRef)
    requires Inv(s) && Next(s, l, s') && p in s.pubs && EachOnce(s.pubs[p]) && Got(s.pubs[p], c, s.bus.bufferSize)
    ensures p in s'.pubs && s'.pubs[p].event == s.pubs[p].event && Got(s'.pubs[p], c, s.bus.bufferSize)
  {
    StepPending(s, l, s', p);
  }

  lemma StepFrom(s: Sys, l: Label, s': Sys, c: ChanRef)
    requires Inv(s) && Account(s) && Next(s, l, s') && c < |s.bus.chans|
    ensures c < |s'.bus.chans| && FromPublishes(s', c)
  {
    StepKeeps(s, l, s', c);
    forall e | e in All(s'.bus.chans[c])
      ensures exists p :: p in s'.pubs && s'.pubs[p].event == e && Got(s'.pubs[p], c, s'.bus.bufferSize)
    {
      if e in All(s.bus.chans[c]) {
        assert FromPublishes(s, c);
        var p :| p in s.pubs && s.pubs[p].event == e && Got(s.pubs[p], c, s.bus.bufferSize);
        StepGot(s, l, s', p, c);
      } else {
        StepPending(s, l, s', l.pub);
        assert Got(s'.pubs[l.pub], c, s'.bus.bufferSize);
      }
    }
  }

  lemma StepAccount(s: Sys, l: Label, s': Sys)
    requires Inv(s) && Account(s) && Next(s, l, s')
    ensures Account(s')
  {
    forall p | p in s'.pubs ensures EachOnce(s'.pubs[p]) && SentHolds(s'.bus, s'.pubs[p]) {
      if p in s.pubs {
        StepEachOnce(s, l, s', p);
        StepSentHolds(s, l, s', p);
      }
    }
    forall c | 0 <= c < |s'.bus.chans| ensures FromPublishes(s', c) {
      if c < |s.bus.chans| { StepFrom(s, l, s', c); } else { assert All(s'.bus.chans[c]) == []; }
    }
  }

  // The comments of different publishes are different.
  ghost predicate OwnComments(s: Sys)
  {
    forall p, q :: p in s.pubs && q in s.pubs && p != q ==> s.pubs[p].event.commentID != s.pubs[q].event.commentID
  }

  ghost predicate NamedOnce(events: seq<Event>)
  {
    forall i, j :: 0 <= i < j < |events| ==> events[i].commentID != events[j].commentID
  }

  ghost predicate NoRepeats(s: Sys) { forall c :: 0 <= c < |s.bus.chans| ==> NamedOnce(All(s.bus.chans[c])) }

  // What a send is about to put into a channel is not there yet.
  lemma NotThereYet(s: Sys, p: nat, c: ChanRef, e: Event)
    requires Account(s) && OwnComments(s) && p in s.pubs && c in s.pubs[p].targets && c < |s.bus.chans|
    requires e in All(s.bus.chans[c])
    ensures e.commentID != s.pubs[p].event.commentID
  {
    assert FromPublishes(s, c);
    var q :| q in s.pubs && s.pubs[q].event == e && Got(s.pubs[q], c, s.bus.bufferSize);
    assert EachOnce(s.pubs[p]);
  }

  lemma StepNoRepeats(s: Sys, l: Label, s': Sys)
    requires Inv(s) && Account(s) && OwnComments(s) && NoRepeats(s) && Next(s, l, s')
    ensures NoRepeats(s')
  {
    forall c | 0 <= c < |s'.bus.chans| ensures NamedOnce(All(s'.bus.chans[c])) {
      if c < |s.bus.chans| {
        StepKeeps(s, l, s', c);
        assert NamedOnce(All(s.bus.chans[c]));
        if PutsInto(s, l, c) { PutOnce(s, l.pub, c); }
      }
    }
  }

  lemma PutOnce(s: Sys, p: nat, c: ChanRef)
    requires Account(s) && OwnComments(s) && p in s.pubs && c in s.pubs[p].targets && c < |s.bus.chans|
    requires NamedOnce(All(s.bus.chans[c]))
    ensures NamedOnce(All(s.bus.chans[c]) + [s.pubs[p].event])
  {
    var before := All(s.bus.chans[c]);
    forall i | 0 <= i < |before| ensures before[i].commentID != s.pubs[p].event.commentID {
      NotThereYet(s, p, c, before[i]);
    }
  }

  // The channels that a publish has been or will be sent to do not change after its snapshot.
  ghost function Reach(p: Pending): set<ChanRef> { p.sent.Keys + set c | c in p.targets }

  lemma StepReach(s: Sys, l: Label, s': Sys, p: nat)
    requires Inv(s) && Next(s, l, s') && p in s.pubs
    ensures p in s'.pubs && Reach(s'.pubs[p]) == Reach(s.pubs[p])
  {
    StepPending(s, l, s', p);
    if s'.pubs[p] != s.pubs[p] {
      var ts := s.pubs[p].targets;
      assert forall c :: c in ts <==> c == ts[0] || c in ts[1..];
    }
  }

  lemma {:induction false} RunAccount(states: seq<Sys>, labels: seq<Label>, i: nat)
    requires IsRun(states, labels) && i < |states|
    ensures Account(states[i])
  {
    if i > 0 {
      RunAccount(states, labels, i - 1);
      RunInv(states, labels, i - 1);
      StepAccount(states[i - 1], labels[i - 1], states[i]);
    }
  }

  lemma {:induction false} RunReach(states: seq<Sys>, labels: seq<Label>, i: nat, j: nat)
    requires IsRun(states, labels) && i < j < |states| && labels[i].Snapshot?
    ensures labels[i].pub in states[j].pubs && Reach(states[j].pubs[labels[i].pub]) == set c | c in labels[i].targets
    decreases j
  {
    assert Next(states[j - 1], labels[j - 1], states[j]);
    if j > i + 1 {
      RunReach(states, labels, i, j - 1);
      RunInv(states, labels, j - 1);
      StepReach(states[j - 1], labels[j - 1], states[j], labels[i].pub);
    }
  }

  // The send of publish p to channel c happened at step m, when the buffer held that many events.
  ghost predicate SentAt(states: seq<Sys>, labels: seq<Label>, m: nat, p: nat, c: ChanRef, length: nat)
  {
    && m < |labels| && |states| == |labels| + 1 && labels[m] == Send(p)
    && p in states[m].pubs && states[m].pubs[p].targets != [] && states[m].pubs[p].targets[0] == c
    && c < |states[m].bus.chans| && states[m].bus.chans[c].open && |states[m].bus.chans[c].buffer| == length
    && states[m + 1].bus == Sent(states[m].bus, c, states[m].pubs[p].event)
  }

  lemma SendAt(states: seq<Sys>, labels: seq<Label>, j: nat, p: nat, c: ChanRef)
    requires IsRun(states, labels) && j < |labels| && p in states[j].pubs
    ensures p in states[j + 1].pubs
    ensures c in states[j + 1].pubs[p].sent ==>
      if c in states[j].pubs[p].sent then states[j + 1].pubs[p].sent[c] == states[j].pubs[p].sent[c]
      else SentAt(states, labels, j, p, c, states[j + 1].pubs[p].sent[c])
  {
    RunInv(states, labels, j);
    RunAccount(states, labels, j);
    assert EachOnce(states[j].pubs[p]);
    StepPending(states[j], labels[j], states[j + 1], p);
  }

  lemma {:induction false} SendOf(states: seq<Sys>, labels: seq<Label>, i: nat, j: nat, p: nat, c: ChanRef)
    requires IsRun(states, labels) && i <= j < |states| && p in states[i].pubs && c !in states[i].pubs[p].sent
    requires p in states[j].pubs && c in states[j].pubs[p].sent
    ensures exists m :: i <= m < j && SentAt(states, labels, m, p, c, states[j].pubs[p].sent[c])
    decreases j
  {
    PubsStay(states, labels, i, j - 1, p);
    SendAt(states, labels, j - 1, p, c);
    if c in states[j - 1].pubs[p].sent { SendOf(states, labels, i, j - 1, p, c); }
  }

  lemma {:induction false} PubsStay(states: seq<Sys>, labels: seq<Label>, i: nat, j: nat, p: nat)
    requires IsRun(states, labels) && i <= j < |states| && p in states[i].pubs
    ensures p in states[j].pubs && states[j].pubs[p].event == states[i].pubs[p].event
    decreases j
  {
    if i < j {
      PubsStay(states, labels, i, j - 1, p);
      assert Next(states[j - 1], labels[j - 1], states[j]);
    }
  }

  /** Delivery of the two-phase publish: each channel of its snapshot is still to be sent to, or has been sent to once
      and has the event, or its buffer was full at that send; and no other channel is ever sent to. */
  lemma Delivery(states: seq<Sys>, labels: seq<Label>, i: nat, j: nat, c: ChanRef)
    requires IsRun(states, labels) && i < j < |states| && labels[i].Snapshot?
    ensures labels[i].pub in states[j].pubs
    ensures var p := states[j].pubs[labels[i].pub];
      && p.event == labels[i].event
      && (c in labels[i].targets <==> c in p.targets || c in p.sent) && !(c in p.targets && c in p.sent)
      && (c in p.sent ==>
            && c < |states[j].bus.chans|
            && (exists m :: i < m < j && SentAt(states, labels, m, labels[i].pub, c, p.sent[c]))
            && (labels[i].event in All(states[j].bus.chans[c]) || p.sent[c] == states[j].bus.bufferSize))
  {
    var pub := labels[i].pub;
    RunReach(states, labels, i, j);
    RunAccount(states, labels, j);
    assert Next(states[i], labels[i], states[i + 1]);
    PubsStay(states, labels, i + 1, j, pub);
    assert EachOnce(states[j].pubs[pub]) && SentHolds(states[j].bus, states[j].pubs[pub]);
    assert c in labels[i].targets <==> c in Reach(states[j].pubs[pub]);
    if c in states[j].pubs[pub].sent { SendOf(states, labels, i + 1, j, pub, c); }
  }

  /** What a channel has held are exactly the events of the publishes that found room in it. */
  lemma HeldIffGot(states: seq<Sys>, labels: seq<Label>, i: nat, c: ChanRef, e: Event)
    requires IsRun(states, labels) && i < |states| && c < |states[i].bus.chans|
    ensures e in All(states[i].bus.chans[c]) <==>
      exists p ::
        p in states[i].pubs && states[i].pubs[p].event == e && Got(states[i].pubs[p], c, states[i].bus.bufferSize)
  {
    RunAccount(states, labels, i);
    assert FromPublishes(states[i], c);
    forall p | p in states[i].pubs && Got(states[i].pubs[p], c, states[i].bus.bufferSize)
      ensures states[i].pubs[p].event in All(states[i].bus.chans[c])
    {
      assert SentHolds(states[i].bus, states[i].pubs[p]);
    }
  }
}

/** Delivery end to end: the services and the memory bus together. */
module ServiceDelivery {
  import opened Uuids
  import opened Domain
  import opened Interleaving
  import EventBus
  import MemoryBus
  import opened MemoryDelivery

  // A call has returned its comment only when all its sends are done.
  ghost predicate ReturnedIsSent(s: Sys)
  {
    forall k :: k in s.calls && s.calls[k].phase.Created? && s.publisher ==>
      k in s.net.pubs && s.net.pubs[k].targets == []
  }

  ghost predicate DeliveryInv(s: Sys) { Inv(s) && Account(s.net) && NoRepeats(s.net) && ReturnedIsSent(s) }

  // Calls publish their own comments, so different publishes are about different ones.
  lemma OwnCommentsHold(s: Sys)
    requires Inv(s)
    ensures OwnComments(s.net)
  {
    forall p | p in s.net.pubs
      ensures s.net.pubs[p].event.commentID in s.creator && s.creator[s.net.pubs[p].event.commentID] == p
    {
      assert CallHolds(s, p, s.calls[p]);
    }
  }

  // What a step of the services is to the bus: nothing, or a step of its own.
  ghost predicate NetStep(s: Sys, l: Label, s': Sys)
  {
    if l.Begin? || l.Advance? then s'.net == s.net
    else MemoryBus.Next(s.net, NetLabel(s, l), s'.net)
  }

  function NetLabel(s: Sys, l: Label): MemoryBus.Label
    requires l.Net? || l.Publish?
  {
    if l.Net? then l.l
    else MemoryBus.Snapshot(
      l.k, if l.k in s.calls && s.calls[l.k].phase.Stored? then EventOf(s.calls[l.k].phase.comment)
           else EventBus.CommentAdded(NIL, NIL, NIL), l.targets)
  }

  lemma StepIsNetStep(s: Sys, l: Label, s': Sys)
    requires Next(s, l, s')
    ensures NetStep(s, l, s')
  {
  }

  // A call is moved by its own steps only.
  lemma OwnStep(s: Sys, l: Label, s': Sys, k: nat)
    requires Next(s, l, s') && k in s'.calls
    ensures s'.publisher == s.publisher
    ensures k !in s.calls ==> s'.calls[k].phase.Begun?
    ensures k in s.calls ==>
      || s'.calls[k] == s.calls[k]
      || (l.Advance? && l.k == k)
      || (l.Publish? && l.k == k && s'.calls[k].phase.Publishing?)
  {
  }

  // It returns its comment when its sends are done, or there is nobody to publish to.
  lemma ReturnsWhenSent(s: Sys, k: nat, id: Uuid, now: Time)
    requires k in s.calls && Outcome(s, k, id, now).Some? && s.publisher
    requires Apply(s, k, Outcome(s, k, id, now).value).calls[k].phase.Created?
    ensures k in s.net.pubs && s.net.pubs[k].targets == []
  {
  }

  lemma SentStaysSent(s: Sys, l: Label, s': Sys, k: nat)
    requires MemoryBus.Inv(s.net) && NetStep(s, l, s') && k in s.net.pubs && s.net.pubs[k].targets == []
    ensures k in s'.net.pubs && s'.net.pubs[k].targets == []
  {
    if l.Net? || l.Publish? { StepPending(s.net, NetLabel(s, l), s'.net, k); }
  }

  lemma StepReturned(s: Sys, l: Label, s': Sys)
    requires Inv(s) && ReturnedIsSent(s) && Next(s, l, s')
    ensures ReturnedIsSent(s')
  {
    StepIsNetStep(s, l, s');
    forall k | k in s'.calls && s'.calls[k].phase.Created? && s'.publisher
      ensures k in s'.net.pubs && s'.net.pubs[k].targets == []
    {
      OwnStep(s, l, s', k);
      if s'.calls[k] != s.calls[k] { ReturnsWhenSent(s, k, l.id, l.now); }
      SentStaysSent(s, l, s', k);
    }
  }

  lemma StepDelivery(s: Sys, l: Label, s': Sys)
    requires DeliveryInv(s) && Next(s, l, s')
    ensures DeliveryInv(s')
  {
    StepInv(s, l, s');
    StepIsNetStep(s, l, s');
    StepReturned(s, l, s');
    if l.Net? || l.Publish? {
      OwnCommentsHold(s);
      StepAccount(s.net, NetLabel(s, l), s'.net);
      StepNoRepeats(s.net, NetLabel(s, l), s'.net);
    }
  }

  lemma {:induction false} RunDelivery(states: seq<Sys>, labels: seq<Label>, i: nat)
    requires IsRun(states, labels) && i < |states|
    ensures DeliveryInv(states[i])
  {
    if i == 0 {
      InitialInv(states[0]);
    } else {
      RunDelivery(states, labels, i - 1);
      StepDelivery(states[i - 1], labels[i - 1], states[i]);
    }
  }

  /** No subscriber is told of a comment twice. */
  lemma EachCommentOnce(states: seq<Sys>, labels: seq<Label>, i: nat, c: EventBus.ChanRef)
    requires IsRun(states, labels) && i < |states| && c < |states[i].net.bus.chans|
    ensures NamedOnce(states[i].net.bus.chans[c].received + states[i].net.bus.chans[c].buffer)
  {
    RunDelivery(states, labels, i);
    assert NamedOnce(All(states[i].net.bus.chans[c]));
  }

  lemma ReachOfPublish(states: seq<Sys>, labels: seq<Label>, i: nat)
    requires IsRun(states, labels) && i < |labels| && labels[i].Publish?
    ensures labels[i].k in states[i + 1].net.pubs
    ensures Reach(states[i + 1].net.pubs[labels[i].k]) == set c | c in labels[i].targets
  {
    PublishFacts(states[i], labels[i].k, labels[i].targets, states[i + 1]);
  }

  lemma ReachAt(states: seq<Sys>, labels: seq<Label>, j: nat, k: nat)
    requires IsRun(states, labels) && j < |labels| && k in states[j].net.pubs
    ensures k in states[j + 1].net.pubs && Reach(states[j + 1].net.pubs[k]) == Reach(states[j].net.pubs[k])
  {
    RunInv(states, labels, j);
    var s, l, s' := states[j], labels[j], states[j + 1];
    StepIsNetStep(s, l, s');
    if l.Net? || l.Publish? { StepReach(s.net, NetLabel(s, l), s'.net, k); }
  }

  lemma {:induction false} ReachStays(states: seq<Sys>, labels: seq<Label>, i: nat, j: nat)
    requires IsRun(states, labels) && i < j < |states| && labels[i].Publish?
    ensures labels[i].k in states[j].net.pubs
    && Reach(states[j].net.pubs[labels[i].k]) == set c | c in labels[i].targets
    decreases j
  {
    if j == i + 1 {
      ReachOfPublish(states, labels, i);
    } else {
      ReachStays(states, labels, i, j - 1);
      ReachAt(states, labels, j - 1, labels[i].k);
    }
  }

  /** When a CreateComment call has returned its comment, each channel that was registered for the post when it took its
      targets has the event, or its buffer was full at the send. */
  lemma ReturnedMeansDelivered(states: seq<Sys>, labels: seq<Label>, i: nat, j: nat, c: EventBus.ChanRef)
    requires IsRun(states, labels) && i < j < |states| && labels[i].Publish? && c in labels[i].targets
    requires labels[i].k in states[j].calls && states[j].calls[labels[i].k].phase.Created?
    requires states[j].publisher
    ensures labels[i].k in states[j].net.pubs && c in states[j].net.pubs[labels[i].k].sent
    ensures c < |states[j].net.bus.chans|
    ensures EventOf(states[j].calls[labels[i].k].phase.comment) in All(states[j].net.bus.chans[c])
         || states[j].net.pubs[labels[i].k].sent[c] == states[j].net.bus.bufferSize
  {
    var k := labels[i].k;
    RunDelivery(states, labels, j);
    ReachStays(states, labels, i, j);
    assert c in Reach(states[j].net.pubs[k]);
    assert SentHolds(states[j].net.bus, states[j].net.pubs[k]);
  }

  /** So every subscriber of the comment's post at that moment has the event, or had a full buffer. */
  lemma SubscribersGetReturned(states: seq<Sys>, labels: seq<Label>, i: nat, j: nat, c: EventBus.ChanRef)
    requires IsRun(states, labels) && i < j < |states| && labels[i].Publish?
    requires labels[i].k in states[j].calls && states[j].calls[labels[i].k].phase.Created?
    requires states[j].publisher && labels[i].k in states[i].calls && states[i].calls[labels[i].k].phase.Stored?
    requires c < |states[i].net.bus.chans| && c < |states[i].net.bus.closures| && states[i].net.bus.chans[c].open
    requires states[i].net.bus.closures[c].postID == states[i].calls[labels[i].k].phase.comment.postID
    ensures labels[i].k in states[j].net.pubs && c in states[j].net.pubs[labels[i].k].sent
    ensures c < |states[j].net.bus.chans|
    ensures EventOf(states[j].calls[labels[i].k].phase.comment) in All(states[j].net.bus.chans[c])
         || states[j].net.pubs[labels[i].k].sent[c] == states[j].net.bus.bufferSize
  {
    OpenIsTarget(states, labels, i, c);
    ReturnedMeansDelivered(states, labels, i, j, c);
  }

  lemma OpenIsTarget(states: seq<Sys>, labels: seq<Label>, i: nat, c: EventBus.ChanRef)
    requires IsRun(states, labels) && i < |labels| && labels[i].Publish?
    requires labels[i].k in states[i].calls && states[i].calls[labels[i].k].phase.Stored?
    requires c < |states[i].net.bus.chans| && c < |states[i].net.bus.closures| && states[i].net.bus.chans[c].open
    requires states[i].net.bus.closures[c].postID == states[i].calls[labels[i].k].phase.comment.postID
    ensures c in labels[i].targets
  {
    RunInv(states, labels, i);
    StepIsNetStep(states[i], labels[i], states[i + 1]);
    EventBus.SnapshotExact(
      states[i].net.bus, states[i].calls[labels[i].k].phase.comment.postID, labels[i].targets);
  }

  lemma StepAborted(s: Sys, l: Label, s': Sys, k: nat)
    requires Inv(s) && Next(s, l, s') && k in s.net.aborted
    ensures k in s'.net.aborted && k in s.net.pubs && k in s'.net.pubs && s'.net.pubs[k] == s.net.pubs[k]
  {
    StepIsNetStep(s, l, s');
    if l.Net? || l.Publish? { MemoryBus.StepAborted(s.net, NetLabel(s, l), s'.net); }
  }

  lemma AbortedCallWaits(s: Sys, k: nat)
    requires DeliveryInv(s) && k in s.net.aborted
    ensures k in s.net.pubs && s.net.pubs[k].targets != []
    ensures k in s.calls && s.calls[k].phase.Publishing?
    ensures s.calls[k].phase.comment.id in s.comments
    && s.comments[s.calls[k].phase.comment.id] == s.calls[k].phase.comment
  {
    assert k in s.net.pubs && s.net.pubs[k].targets != [];
    assert k in s.calls && CallHolds(s, k, s.calls[k]);
  }

  lemma WaitingCallHasNoStep(s: Sys, k: nat, id: Uuid, now: Time)
    requires k in s.calls && s.calls[k].phase.Publishing? && k in s.net.pubs && s.net.pubs[k].targets != []
    ensures Outcome(s, k, id, now).None?
  {
  }

  lemma StepAbortedCall(s: Sys, l: Label, s': Sys, k: nat)
    requires k in s.calls && s.calls[k].phase.Publishing? && k in s.net.pubs && s.net.pubs[k].targets != []
    requires Next(s, l, s')
    ensures k in s'.calls && s'.calls[k] == s.calls[k]
  {
    KeepsCalls(s, l, s', k);
    OwnStep(s, l, s', k);
    if l.Advance? && l.k == k { WaitingCallHasNoStep(s, k, l.id, l.now); }
  }

  lemma KeepsCalls(s: Sys, l: Label, s': Sys, k: nat)
    requires Next(s, l, s') && k in s.calls
    ensures k in s'.calls
  {
  }

  // The aborted call is where it was, and so is its publish.
  ghost predicate SameAborted(s: Sys, s': Sys, k: nat)
  {
    && k in s.net.aborted && k in s'.net.aborted
    && k in s.net.pubs && k in s'.net.pubs && s'.net.pubs[k] == s.net.pubs[k]
    && k in s.calls && k in s'.calls && s'.calls[k] == s.calls[k]
  }

  lemma AbortedStays(s: Sys, l: Label, s': Sys, k: nat)
    requires DeliveryInv(s) && Next(s, l, s') && k in s.net.aborted
    ensures SameAborted(s, s', k)
  {
    StepAborted(s, l, s', k);
    AbortedCallWaits(s, k);
    StepAbortedCall(s, l, s', k);
  }

  lemma AbortedAt(states: seq<Sys>, labels: seq<Label>, i: nat, k: nat)
    requires IsRun(states, labels) && i < |labels| && k in states[i].net.aborted
    ensures SameAborted(states[i], states[i + 1], k)
  {
    RunDelivery(states, labels, i);
    AbortedStays(states[i], labels[i], states[i + 1], k);
  }

  /** What becomes of a call whose publish met a closed channel: its comment stays stored, its remaining targets are
      never sent to, and it never returns the comment. Everything else goes on. */
  lemma AbortedForGood(states: seq<Sys>, labels: seq<Label>, i: nat, j: nat, k: nat)
    requires IsRun(states, labels) && i <= j < |states| && k in states[i].net.aborted
    ensures SameAborted(states[i], states[j], k)
    ensures states[j].calls[k].phase.Publishing?
    ensures states[j].calls[k].phase.comment.id in states[j].comments
    ensures states[j].comments[states[j].calls[k].phase.comment.id] == states[j].calls[k].phase.comment
  {
    RunDelivery(states, labels, j);
    AbortedBetween(states, labels, i, j, k);
    AbortedCallWaits(states[j], k);
  }

  lemma {:induction false} AbortedBetween(states: seq<Sys>, labels: seq<Label>, i: nat, j: nat, k: nat)
    requires IsRun(states, labels) && i <= j < |states| && k in states[i].net.aborted
    ensures SameAborted(states[i], states[j], k)
    decreases j
  {
    if i < j {
      AbortedBetween(states, labels, i, j - 1, k);
      AbortedAt(states, labels, j - 1, k);
    } else {
      AbortedNow(states, labels, i, k);
    }
  }

  lemma AbortedNow(states: seq<Sys>, labels: seq<Label>, i: nat, k: nat)
    requires IsRun(states, labels) && i < |states| && k in states[i].net.aborted
    ensures SameAborted(states[i], states[i], k)
  {
    RunDelivery(states, labels, i);
    AbortedCallWaits(states[i], k);
  }
}

/** The PostgreSQL bus under any interleaving: one listener goroutine dispatches notifications in two phases, and
    Close runs in stages: mark, cancel, wait for the listener, disconnect, sweep. */
module PostgresBus {
  import opened Domain
  import opened EventBus

  // listen: between notifications, about to dispatch, past the snapshot of a dispatch, or returned (done is closed).
  datatype Listener = Waiting | Decoded(event: Event) | Sending(event: Event, targets: seq<ChanRef>) | Exited

  // The Close call that set closed: where it is, Failed when disconnecting failed, Finished when it returned nil.
  datatype Closer = Idle | Marked | Cancelled | Joined | Disconnected | Failed | Finished

  /** History of one channel, by position in the log of dispatched events: the log's length when it was subscribed, the
      events put into its buffer, and the events it missed with the buffer's length at that send. */
  datatype Ledger = Ledger(since: nat, got: seq<nat>, missed: map<nat, nat>)

  // panicked: a send of the listener met a closed channel; nothing recovers in that goroutine, so the process ends.
  datatype Sys = Sys(
    bus: BusState, listener: Listener, closer: Closer, log: seq<Event>, ledgers: seq<Ledger>, panicked: bool)

  datatype Label =
    | Subscribe(postID: PostID)
    | Unsubscribe(k: nat)
    | Receive(c: ChanRef)
    | Notify(event: Event)   // a notification arrived and decoded
    | BadNotification        // it did not, or the wait failed: logged, loop again
    | Exit                   // the wait was cancelled
    | Snapshot(targets: seq<ChanRef>)
    | Send
    | SendsDone
    | CloseCall | Cancel | Join | Disconnect(ok: bool) | Sweep

  ghost predicate Next(s: Sys, l: Label, s': Sys)
  {
    && !s.panicked
    && match l
       case Subscribe(postID) =>
         s' == if s.bus.closed then s
               else s.(bus := Subscribed(s.bus, postID), ledgers := s.ledgers + [Ledger(|s.log|, [], map[])])
       case Unsubscribe(k) => k < |s.bus.closures| == |s.bus.chans| && s' == s.(bus := Unsubscribed(s.bus, k))
       case Receive(c) => c < |s.bus.chans| && s.bus.chans[c].buffer != [] && s' == s.(bus := Received(s.bus, c))
       case Notify(event) => s.listener.Waiting? && s' == s.(listener := Decoded(event))
       case BadNotification => s.listener.Waiting? && s' == s
       case Exit => s.listener.Waiting? && s' == s.(listener := Exited)
       case Snapshot(targets) =>
         s.listener.Decoded? && IsSnapshot(s.bus, s.listener.event.postID, targets)
         && s' == s.(listener := Sending(s.listener.event, targets), log := s.log + [s.listener.event])
       case Send => s.listener.Sending? && s.listener.targets != [] && SendNext(s, s')
       case SendsDone => s.listener.Sending? && s.listener.targets == [] && s' == s.(listener := Waiting)
       case CloseCall => s' == if s.bus.closed then s else s.(bus := s.bus.(closed := true), closer := Marked)
       case Cancel => s.closer.Marked? && s' == s.(closer := Cancelled)
       case Join => s.closer.Cancelled? && s.listener.Exited? && s' == s.(closer := Joined)
       case Disconnect(ok) => s.closer.Joined? && s' == s.(closer := if ok then Disconnected else Failed)
       case Sweep => s.closer.Disconnected? && s' == s.(bus := Swept(s.bus), closer := Finished)
  }

  ghost predicate SendNext(s: Sys, s': Sys)
    requires s.listener.Sending? && s.listener.targets != []
  {
    var c := s.listener.targets[0];
    && c < |s.bus.chans| && c < |s.ledgers| && s.log != []
    && if !s.bus.chans[c].open then s' == s.(panicked := true)
       else s' == s.(
         bus := Sent(s.bus, c, s.listener.event),
         listener := Sending(s.listener.event, s.listener.targets[1..]),
         ledgers := s.ledgers[c := Noted(s.ledgers[c], |s.log| - 1, |s.bus.chans[c].buffer|, s.bus.bufferSize)])
  }

  // The ledger after event n was sent to a buffer holding that many.
  function Noted(l: Ledger, n: nat, buffered: nat, bufferSize: nat): Ledger
  {
    if buffered < bufferSize then l.(got := l.got + [n]) else l.(missed := l.missed[n := buffered])
  }

  ghost predicate Initial(s: Sys) { exists bufferSize :: s == Sys(New(bufferSize), Waiting, Idle, [], [], false) }

  ghost predicate IsRun(states: seq<Sys>, labels: seq<Label>)
  {
    && |states| == |labels| + 1
    && Initial(states[0])
    && forall i {:trigger labels[i]} :: 0 <= i < |labels| ==> Next(states[i], labels[i], states[i + 1])
  }

  // Event n of the log was dispatched for channel c's post after c was subscribed.
  predicate Concerns(s: Sys, c: ChanRef, n: nat)
    requires c < |s.ledgers| == |s.bus.closures|
  {
    s.ledgers[c].since <= n < |s.log| && s.log[n].postID == s.bus.closures[c].postID
  }

  predicate Increasing(ns: seq<nat>) { forall i, j :: 0 <= i < j < |ns| ==> ns[i] < ns[j] }

  // Event n is being sent and c is still among the targets.
  predicate Awaited(s: Sys, c: ChanRef, n: nat)
  {
    s.listener.Sending? && n == |s.log| - 1 && c in s.listener.targets
  }

  /** Received plus buffered are the events of the ledger, in log order; what was missed met a full buffer; and a
      channel still open has got or missed everything that concerned it, but for a send still to come. */
  ghost predicate LedgerHolds(s: Sys, c: ChanRef)
    requires c < |s.ledgers| == |s.bus.closures| == |s.bus.chans|
  {
    GotHolds(s, c) && MissedHolds(s, c) && AllAccounted(s, c)
  }

  ghost predicate GotHolds(s: Sys, c: ChanRef)
    requires c < |s.ledgers| == |s.bus.closures| == |s.bus.chans|
  {
    var ch, l := s.bus.chans[c], s.ledgers[c];
    && l.since <= |s.log| && Increasing(l.got)
    && (forall i :: 0 <= i < |l.got| ==> Concerns(s, c, l.got[i]))
    && |ch.received + ch.buffer| == |l.got|
    && (forall i :: 0 <= i < |l.got| ==> l.got[i] < |s.log| && (ch.received + ch.buffer)[i] == s.log[l.got[i]])
  }

  ghost predicate MissedHolds(s: Sys, c: ChanRef)
    requires c < |s.ledgers| == |s.bus.closures|
  {
    var l := s.ledgers[c];
    forall n :: n in l.missed ==> Concerns(s, c, n) && l.missed[n] == s.bus.bufferSize && n !in l.got
  }

  ghost predicate AllAccounted(s: Sys, c: ChanRef)
    requires c < |s.ledgers| == |s.bus.closures| == |s.bus.chans|
  {
    var l := s.ledgers[c];
    s.bus.chans[c].open ==> forall n :: Concerns(s, c, n) ==> n in l.got || n in l.missed || Awaited(s, c, n)
  }

  // A target still to be sent to has not got the current event yet.
  ghost predicate TargetsFresh(s: Sys)
    requires |s.ledgers| == |s.bus.closures|
  {
    s.listener.Sending? ==>
      && s.log != [] && s.log[|s.log| - 1] == s.listener.event
      && (forall i, j :: 0 <= i < j < |s.listener.targets| ==> s.listener.targets[i] != s.listener.targets[j])
      && (forall c :: c in s.listener.targets ==>
            c < |s.ledgers| && Concerns(s, c, |s.log| - 1)
            && |s.log| - 1 !in s.ledgers[c].got && |s.log| - 1 !in s.ledgers[c].missed)
  }

  predicate PastJoin(c: Closer) { c.Joined? || c.Disconnected? || c.Failed? || c.Finished? }

  ghost predicate Inv(s: Sys)
  {
    && Valid(s.bus)
    && |s.ledgers| == |s.bus.chans|
    && (forall c :: 0 <= c < |s.ledgers| ==> LedgerHolds(s, c))
    && TargetsFresh(s)
    && (s.bus.closed <==> !s.closer.Idle?)
    && (PastJoin(s.closer) ==> s.listener.Exited?)
    && (s.closer.Finished? ==> s.bus.subscribers == map[])
  }

  lemma StepValid(s: Sys, l: Label, s': Sys)
    requires Inv(s) && Next(s, l, s')
    ensures Valid(s'.bus) && |s'.ledgers| == |s'.bus.chans|
    ensures s'.closer.Finished? ==> s'.bus.subscribers == map[]
  {
    match l
    case Subscribe(postID) => if !s.bus.closed { SubscribedValid(s.bus, postID); }
    case Unsubscribe(k) => UnsubscribedValid(s.bus, k);
    case Receive(c) => ReceivedValid(s.bus, c);
    case Send => if !s'.panicked { SentValid(s.bus, s.listener.targets[0], s.listener.event); }
    case CloseCall => SameMaps(s.bus, s'.bus); assert OpenIffRegistered(s'.bus);
    case Sweep => SweptValid(s.bus);
    case _ =>
  }

  lemma StepOpen(s: Sys, l: Label, s': Sys, c: ChanRef)
    requires Inv(s) && Next(s, l, s') && c < |s.bus.chans|
    ensures c < |s'.bus.chans|
    ensures s'.bus.chans[c].open <==> s.bus.chans[c].open && l != Unsubscribe(c) && !l.Sweep?
  {
    if l.Unsubscribe? { UnsubscribeOpen(s.bus, l.k, c); }
  }

  // What every step leaves alone in one channel and its history.
  lemma StepChan(s: Sys, l: Label, s': Sys, c: ChanRef)
    requires Inv(s) && Next(s, l, s') && c < |s.bus.chans|
    ensures c < |s'.bus.chans| && c < |s'.bus.closures| && c < |s'.ledgers|
    ensures s'.bus.closures[c].postID == s.bus.closures[c].postID && s'.bus.bufferSize == s.bus.bufferSize
    ensures s'.log == if l.Snapshot? then s.log + [s.listener.event] else s.log
    ensures !l.Send? ==> s'.ledgers[c] == s.ledgers[c]
    ensures !l.Send? ==>
      s'.bus.chans[c].received + s'.bus.chans[c].buffer == s.bus.chans[c].received + s.bus.chans[c].buffer
  {
  }

  lemma StepLedger(s: Sys, l: Label, s': Sys, c: ChanRef)
    requires Inv(s) && Next(s, l, s') && !l.Send? && c < |s'.ledgers|
    requires |s'.ledgers| == |s'.bus.closures| == |s'.bus.chans|
    ensures LedgerHolds(s', c)
  {
    if c >= |s.ledgers| {
      NewLedger(s, l, s', c);
    } else if l.Snapshot? {
      SnapshotCovers(s, l.targets, s', c);
    } else {
      StepChan(s, l, s', c);
      StepOpen(s, l, s', c);
      StillAwaited(s, l, s', c);
      assert LedgerHolds(s, c);
      QuietLedger(s, s', c);
    }
  }

  // A channel just made has nothing to account for.
  lemma NewLedger(s: Sys, l: Label, s': Sys, c: ChanRef)
    requires Next(s, l, s') && |s.ledgers| == |s.bus.closures| == |s.bus.chans| <= c < |s'.ledgers|
    requires |s'.ledgers| == |s'.bus.closures| == |s'.bus.chans|
    ensures LedgerHolds(s', c)
  {
    assert l.Subscribe?;
    assert s'.bus.chans[c] == Chan(true, [], []) && s'.ledgers[c] == Ledger(|s'.log|, [], map[]);
  }

  lemma StillAwaited(s: Sys, l: Label, s': Sys, c: ChanRef)
    requires Next(s, l, s') && !l.Send? && !l.Snapshot?
    ensures forall n :: Awaited(s, c, n) ==> Awaited(s', c, n)
  {
  }

  // Nothing was sent and no event entered the log: channel c's account stays.
  lemma QuietLedger(s: Sys, s': Sys, c: ChanRef)
    requires c < |s.ledgers| == |s.bus.closures| == |s.bus.chans|
    requires c < |s'.ledgers| == |s'.bus.closures| == |s'.bus.chans|
    requires LedgerHolds(s, c) && s'.log == s.log && s'.ledgers[c] == s.ledgers[c]
    requires s'.bus.closures[c].postID == s.bus.closures[c].postID && s'.bus.bufferSize == s.bus.bufferSize
    requires s'.bus.chans[c].received + s'.bus.chans[c].buffer == s.bus.chans[c].received + s.bus.chans[c].buffer
    requires s'.bus.chans[c].open ==> s.bus.chans[c].open
    requires forall n :: Awaited(s, c, n) ==> Awaited(s', c, n)
    ensures LedgerHolds(s', c)
  {
    assert forall n :: Concerns(s', c, n) <==> Concerns(s, c, n);
  }

  lemma SnapshotCovers(s: Sys, targets: seq<ChanRef>, s': Sys, c: ChanRef)
    requires Inv(s) && Next(s, Snapshot(targets), s') && c < |s.ledgers|
    ensures LedgerHolds(s', c)
  {
    assert LedgerHolds(s, c);
    assert forall n :: 0 <= n < |s.log| ==> (Concerns(s', c, n) <==> Concerns(s, c, n));
    if s.bus.chans[c].open && Concerns(s', c, |s.log|) {
      assert c in targets;
      assert Awaited(s', c, |s.log|);
    }
  }

  lemma SendToOther(s: Sys, s': Sys, c: ChanRef)
    requires Inv(s) && Next(s, Send, s') && !s'.panicked && c < |s.ledgers| && c != s.listener.targets[0]
    ensures LedgerHolds(s', c)
  {
    assert LedgerHolds(s, c);
    assert forall m :: Concerns(s', c, m) <==> Concerns(s, c, m);
    assert forall m :: Awaited(s, c, m) ==> Awaited(s', c, m);
  }

  lemma SendWithRoom(s: Sys, s': Sys, c: ChanRef)
    requires Inv(s) && Next(s, Send, s') && !s'.panicked && c < |s.ledgers| && c == s.listener.targets[0]
    requires |s.bus.chans[c].buffer| < s.bus.bufferSize
    ensures LedgerHolds(s', c)
  {
    var n := |s.log| - 1;
    assert LedgerHolds(s, c) && c in s.listener.targets;
    assert s'.ledgers[c] == s.ledgers[c].(got := s.ledgers[c].got + [n]);
    assert s'.bus.chans[c].received + s'.bus.chans[c].buffer
        == s.bus.chans[c].received + s.bus.chans[c].buffer + [s.log[n]];
    GotOneMore(s, s', c);
    MissedNoMore(s, s', c);
    AccountedOneMore(s, s', c);
  }

  // The current event was put into the buffer of channel c.
  ghost predicate PutIn(s: Sys, s': Sys, c: ChanRef)
    requires c < |s.ledgers| == |s.bus.closures| == |s.bus.chans|
    requires c < |s'.ledgers| == |s'.bus.closures| == |s'.bus.chans|
  {
    && s.log != [] && s'.log == s.log
    && s'.bus.closures[c].postID == s.bus.closures[c].postID && s'.bus.bufferSize == s.bus.bufferSize
    && s'.ledgers[c] == s.ledgers[c].(got := s.ledgers[c].got + [|s.log| - 1])
    && s'.bus.chans[c].received + s'.bus.chans[c].buffer
         == s.bus.chans[c].received + s.bus.chans[c].buffer + [s.log[|s.log| - 1]]
    && Concerns(s, c, |s.log| - 1) && |s.log| - 1 !in s.ledgers[c].got && |s.log| - 1 !in s.ledgers[c].missed
  }

  lemma GotOneMore(s: Sys, s': Sys, c: ChanRef)
    requires c < |s.ledgers| == |s.bus.closures| == |s.bus.chans|
    requires c < |s'.ledgers| == |s'.bus.closures| == |s'.bus.chans|
    requires GotHolds(s, c) && PutIn(s, s', c)
    ensures GotHolds(s', c)
  {
    var got, got' := s.ledgers[c].got, s'.ledgers[c].got;
    forall i | 0 <= i < |got| ensures got[i] < |s.log| - 1 {
      assert got[i] in got && Concerns(s, c, got[i]);
    }
    forall i | 0 <= i < |got'| ensures Concerns(s', c, got'[i]) {
      if i < |got| { assert Concerns(s, c, got[i]); }
    }
  }

  lemma MissedNoMore(s: Sys, s': Sys, c: ChanRef)
    requires c < |s.ledgers| == |s.bus.closures| == |s.bus.chans|
    requires c < |s'.ledgers| == |s'.bus.closures| == |s'.bus.chans|
    requires MissedHolds(s, c) && PutIn(s, s', c)
    ensures MissedHolds(s', c)
  {
    forall n | n in s'.ledgers[c].missed ensures Concerns(s', c, n) && n !in s'.ledgers[c].got {
      assert Concerns(s, c, n) && n !in s.ledgers[c].got;
    }
  }

  lemma AccountedOneMore(s: Sys, s': Sys, c: ChanRef)
    requires c < |s.ledgers| == |s.bus.closures| == |s.bus.chans|
    requires c < |s'.ledgers| == |s'.bus.closures| == |s'.bus.chans|
    requires AllAccounted(s, c) && PutIn(s, s', c) && s.bus.chans[c].open
    ensures AllAccounted(s', c)
  {
    forall n | Concerns(s', c, n) ensures n in s'.ledgers[c].got || n in s'.ledgers[c].missed {
      assert Concerns(s, c, n);
      if n in s.ledgers[c].got { assert n in s.ledgers[c].got + [|s.log| - 1]; }
    }
  }

  lemma SendToFull(s: Sys, s': Sys, c: ChanRef)
    requires Inv(s) && Next(s, Send, s') && !s'.panicked && c < |s.ledgers| && c == s.listener.targets[0]
    requires |s.bus.chans[c].buffer| >= s.bus.bufferSize
    ensures LedgerHolds(s', c)
  {
    var n := |s.log| - 1;
    assert LedgerHolds(s, c) && c in s.listener.targets;
    assert |s.bus.chans[c].buffer| == s.bus.bufferSize;
    assert s'.ledgers[c] == s.ledgers[c].(missed := s.ledgers[c].missed[n := s.bus.bufferSize]);
    MissedOneMore(s, s', c);
  }

  // The current event did not fit into the buffer of channel c.
  lemma MissedOneMore(s: Sys, s': Sys, c: ChanRef)
    requires c < |s.ledgers| == |s.bus.closures| == |s.bus.chans|
    requires c < |s'.ledgers| == |s'.bus.closures| == |s'.bus.chans|
    requires LedgerHolds(s, c) && s.log != [] && s'.log == s.log && s'.bus.chans[c] == s.bus.chans[c]
    requires s'.bus.closures[c].postID == s.bus.closures[c].postID && s'.bus.bufferSize == s.bus.bufferSize
    requires Concerns(s, c, |s.log| - 1) && |s.log| - 1 !in s.ledgers[c].got
    requires s'.ledgers[c] == s.ledgers[c].(missed := s.ledgers[c].missed[|s.log| - 1 := s.bus.bufferSize])
    ensures LedgerHolds(s', c)
  {
    assert forall m :: Concerns(s', c, m) <==> Concerns(s, c, m);
  }

  lemma SendLedger(s: Sys, s': Sys, c: ChanRef)
    requires Inv(s) && Next(s, Send, s') && c < |s.ledgers|
    requires |s'.ledgers| == |s'.bus.closures| == |s'.bus.chans|
    ensures LedgerHolds(s', c)
  {
    if s'.panicked {
      assert LedgerHolds(s, c);
      assert forall m :: Concerns(s', c, m) <==> Concerns(s, c, m);
    } else if c != s.listener.targets[0] {
      SendToOther(s, s', c);
    } else if |s.bus.chans[c].buffer| < s.bus.bufferSize {
      SendWithRoom(s, s', c);
    } else {
      SendToFull(s, s', c);
    }
  }

  lemma StepTargets(s: Sys, l: Label, s': Sys)
    requires Inv(s) && Next(s, l, s') && |s'.ledgers| == |s'.bus.closures|
    ensures TargetsFresh(s')
  {
    if l.Snapshot? {
      SnapshotTargets(s, l.targets, s');
    } else if s'.listener.Sending? {
      forall c | c in s'.listener.targets
        ensures c < |s'.ledgers| && Concerns(s', c, |s'.log| - 1)
             && |s'.log| - 1 !in s'.ledgers[c].got && |s'.log| - 1 !in s'.ledgers[c].missed
      {
        assert c in s.listener.targets;
        StepChan(s, l, s', c);
      }
    }
  }

  lemma SnapshotTargets(s: Sys, targets: seq<ChanRef>, s': Sys)
    requires Inv(s) && Next(s, Snapshot(targets), s')
    ensures TargetsFresh(s')
  {
    forall c | c in targets
      ensures c < |s'.ledgers| && Concerns(s', c, |s'.log| - 1)
           && |s'.log| - 1 !in s'.ledgers[c].got && |s'.log| - 1 !in s'.ledgers[c].missed
    {
      assert c < |s.ledgers| && LedgerHolds(s, c);
    }
  }

  lemma StepInv(s: Sys, l: Label, s': Sys)
    requires Inv(s) && Next(s, l, s')
    ensures Inv(s')
  {
    StepValid(s, l, s');
    StepTargets(s, l, s');
    forall c | 0 <= c < |s'.ledgers| ensures LedgerHolds(s', c) {
      if l.Send? { SendLedger(s, s', c); } else { StepLedger(s, l, s', c); }
    }
  }

  lemma {:induction false} RunInv(states: seq<Sys>, labels: seq<Label>, i: nat)
    requires IsRun(states, labels) && i < |states|
    ensures Inv(states[i])
  {
    if i > 0 {
      RunInv(states, labels, i - 1);
      StepInv(states[i - 1], labels[i - 1], states[i]);
    }
  }

  predicate IsDispatch(l: Label) { l.Notify? || l.Snapshot? || l.Send? || l.SendsDone? }

  lemma {:induction false} StaysPastJoin(states: seq<Sys>, labels: seq<Label>, i: nat, j: nat)
    requires IsRun(states, labels) && i <= j < |states| && PastJoin(states[i].closer)
    ensures PastJoin(states[j].closer) && (states[i].closer.Finished? ==> states[j].closer.Finished?)
    decreases j
  {
    if i < j {
      StaysPastJoin(states, labels, i, j - 1);
      RunInv(states, labels, j - 1);
      assert Next(states[j - 1], labels[j - 1], states[j]);
    }
  }

  /** Once Close has passed its wait on done, no dispatch step runs again; so the sweep never closes a channel that a
      dispatch will still send to. */
  lemma NoDispatchAfterJoin(states: seq<Sys>, labels: seq<Label>, i: nat, j: nat)
    requires IsRun(states, labels) && i <= j < |labels| && PastJoin(states[i].closer)
    ensures !IsDispatch(labels[j])
  {
    StaysPastJoin(states, labels, i, j);
    RunInv(states, labels, j);
    assert Next(states[j], labels[j], states[j + 1]);
  }

  /** When the Close call that set closed has returned nil, every channel ever created is closed and the maps are empty,
      from then on. */
  lemma FinishedMeansClosed(states: seq<Sys>, labels: seq<Label>, i: nat, j: nat, c: ChanRef)
    requires IsRun(states, labels) && i <= j < |states| && states[i].closer.Finished?
    ensures states[j].bus.subscribers == map[] && |states[j].bus.chans| == |states[i].bus.chans|
    ensures c < |states[j].bus.chans| ==> !states[j].bus.chans[c].open
    decreases j
  {
    RunInv(states, labels, j);
    StaysPastJoin(states, labels, i, j);
    NoneOpen(states[j].bus);
    if i < j {
      FinishedMeansClosed(states, labels, i, j - 1, c);
      RunInv(states, labels, j - 1);
      assert Next(states[j - 1], labels[j - 1], states[j]);
    }
  }

  /** From the first Close call on, whatever becomes of it, the bus is marked and no channel is made any more. */
  lemma {:induction false} MarkedForGood(states: seq<Sys>, labels: seq<Label>, i: nat, j: nat)
    requires IsRun(states, labels) && i < j < |states| && labels[i].CloseCall?
    ensures states[j].bus.closed && |states[j].bus.chans| == |states[i].bus.chans|
    decreases j
  {
    if j > i + 1 { MarkedForGood(states, labels, i, j - 1); }
    assert Next(states[j - 1], labels[j - 1], states[j]);
  }

  // How far Close has come.
  function Stage(c: Closer): nat
  {
    match c
    case Idle => 0
    case Marked => 1
    case Cancelled => 2
    case Joined => 3
    case Disconnected => 4
    case Failed => 4
    case Finished => 5
  }

  /** Close goes through its stages one by one and in order: mark, cancel, wait for the listener, disconnect, sweep.
      Each stage is one labelled step, the wait ends only after the listener has returned, and a failed disconnect ends
      it. */
  lemma CloseInStages(s: Sys, l: Label, s': Sys)
    requires Inv(s) && Next(s, l, s') && s'.closer != s.closer
    ensures Stage(s'.closer) == Stage(s.closer) + 1 && !s.closer.Failed?
    ensures match Stage(s'.closer)
      case 1 => l.CloseCall? && !s.bus.closed && s'.bus.closed
      case 2 => l.Cancel?
      case 3 => l.Join? && s.listener.Exited?
      case 4 => l.Disconnect? && (s'.closer.Failed? <==> !l.ok)
      case _ => l.Sweep? && s'.bus.subscribers == map[]
  {
  }

  // No other dispatch starts between i and j, so what is still to be sent at j is the rest of the snapshot at i.
  lemma {:induction false} TargetsFrom(states: seq<Sys>, labels: seq<Label>, i: nat, j: nat)
    requires IsRun(states, labels) && i < j < |states| && labels[i].Snapshot?
    requires forall k :: i < k < j ==> !labels[k].Snapshot?
    ensures states[j].listener.Sending? ==>
      |states[j].listener.targets| <= |labels[i].targets|
      && states[j].listener.targets == labels[i].targets[|labels[i].targets| - |states[j].listener.targets|..]
    decreases j
  {
    if j == i + 1 {
      assert Next(states[i], labels[i], states[i + 1]);
    } else {
      TargetsFrom(states, labels, i, j - 1);
      assert Next(states[j - 1], labels[j - 1], states[j]);
    }
  }

  lemma {:induction false} OpenBetween(states: seq<Sys>, labels: seq<Label>, i: nat, j: nat, c: ChanRef)
    requires IsRun(states, labels) && i <= j < |states| && c < |states[i].bus.chans|
    ensures c < |states[j].bus.chans|
    ensures states[j].bus.chans[c].open <==>
      states[i].bus.chans[c].open && forall k :: i <= k < j ==> labels[k] != Unsubscribe(c) && !labels[k].Sweep?
    decreases j
  {
    if i < j {
      OpenBetween(states, labels, i, j - 1, c);
      RunInv(states, labels, j - 1);
      assert Next(states[j - 1], labels[j - 1], states[j]);
      StepOpen(states[j - 1], labels[j - 1], states[j], c);
    }
  }

  lemma TargetOpen(states: seq<Sys>, labels: seq<Label>, i: nat, c: ChanRef)
    requires IsRun(states, labels) && i < |labels| && labels[i].Snapshot? && c in labels[i].targets
    ensures c < |states[i].bus.chans| && states[i].bus.chans[c].open
  {
    RunInv(states, labels, i);
    assert Next(states[i], labels[i], states[i + 1]);
  }

  lemma SendOutcome(states: seq<Sys>, labels: seq<Label>, j: nat)
    requires IsRun(states, labels) && j < |labels| && labels[j].Send?
    ensures states[j].listener.Sending? && states[j].listener.targets != []
    ensures states[j].listener.targets[0] < |states[j].bus.chans|
    ensures states[j + 1].panicked <==> !states[j].bus.chans[states[j].listener.targets[0]].open
  {
    assert Next(states[j], labels[j], states[j + 1]);
  }

  /** The send of a dispatch panics if and only if its target's unsubscribe closure ran between the snapshot and the
      send: Close never causes it. */
  lemma SendPanicsIff(states: seq<Sys>, labels: seq<Label>, i: nat, j: nat)
    requires IsRun(states, labels) && i < j < |labels| && labels[i].Snapshot? && labels[j].Send?
    requires forall k :: i < k < j ==> !labels[k].Snapshot?
    ensures states[j].listener.Sending? && states[j].listener.targets != []
    ensures states[j].listener.targets[0] in labels[i].targets
    ensures states[j + 1].panicked <==>
      exists k :: i < k < j && labels[k] == Unsubscribe(states[j].listener.targets[0])
  {
    SendOutcome(states, labels, j);
    TargetsFrom(states, labels, i, j);
    var targets, rest := labels[i].targets, states[j].listener.targets;
    assert rest[0] == targets[|targets| - |rest|];
    TargetOpen(states, labels, i, rest[0]);
    OpenBetween(states, labels, i, j, rest[0]);
    forall k | i < k < j ensures !labels[k].Sweep? {
      if labels[k].Sweep? {
        assert Next(states[k], labels[k], states[k + 1]);
        NoDispatchAfterJoin(states, labels, k, j);
      }
    }
  }

  // A run in which it does: subscribe, a notification, its snapshot, unsubscribe, send.
  lemma SendCanPanic(postID: PostID, event: Event)
    requires event.postID == postID
    ensures exists states: seq<Sys> ::
      IsRun(states, [Subscribe(postID), Notify(event), Snapshot([0]), Unsubscribe(0), Send]) && states[5].panicked
  {
    var s0 := Sys(New(0), Waiting, Idle, [], [], false);
    var s1 := s0.(bus := Subscribed(s0.bus, postID), ledgers := [Ledger(0, [], map[])]);
    OneSubscriber(postID);
    var s2 := s1.(listener := Decoded(event));
    var s3 := s2.(listener := Sending(event, [0]), log := [event]);
    var s4 := s3.(bus := Unsubscribed(s3.bus, 0));
    var s5 := s4.(panicked := true);
    var states := [s0, s1, s2, s3, s4, s5];
    var labels := [Subscribe(postID), Notify(event), Snapshot([0]), Unsubscribe(0), Send];
    assert Next(s0, labels[0], s1);
    assert Next(s1, labels[1], s2);
    assert Next(s2, labels[2], s3);
    assert Next(s3, labels[3], s4);
    assert SendNext(s4, s5);
    assert Next(s4, labels[4], s5);
    assert IsRun(states, labels);
  }

  // Channel c has an entry for event n of the log: it got it, or missed it.
  predicate Entered(s: Sys, c: ChanRef, n: nat)
  {
    c < |s.ledgers| && (n in s.ledgers[c].got || n in s.ledgers[c].missed)
  }

  // At step m event n of the log was sent to channel c, which was open.
  ghost predicate SentAt(states: seq<Sys>, labels: seq<Label>, m: nat, c: ChanRef, n: nat)
  {
    m < |labels| && |states| == |labels| + 1 && labels[m].Send? && SendsTo(states[m], states[m + 1], c, n)
  }

  ghost predicate SendsTo(s: Sys, s': Sys, c: ChanRef, n: nat)
  {
    && s.listener.Sending? && s.listener.targets != [] && s.listener.targets[0] == c && |s.log| == n + 1
    && c < |s.bus.chans| && s.bus.chans[c].open && s'.bus == Sent(s.bus, c, s.log[n])
  }

  predicate HasRoom(s: Sys, c: ChanRef) { c < |s.bus.chans| && |s.bus.chans[c].buffer| < s.bus.bufferSize }

  // Entries stay; a new one is made by a send, as got when there was room and as missed when there was none.
  lemma StepEntered(s: Sys, l: Label, s': Sys, c: ChanRef, n: nat)
    requires Inv(s) && Next(s, l, s') && c < |s.ledgers| && c < |s'.ledgers|
    ensures n in s.ledgers[c].got ==> n in s'.ledgers[c].got
    ensures n in s.ledgers[c].missed ==> n in s'.ledgers[c].missed
    ensures Entered(s', c, n) && !Entered(s, c, n) ==>
      && l.Send? && SendsTo(s, s', c, n)
      && (if HasRoom(s, c) then n in s'.ledgers[c].got else n in s'.ledgers[c].missed)
  {
    if l.Send? { SendEntered(s, s', c, n); } else { StepChan(s, l, s', c); }
  }

  lemma SendEntered(s: Sys, s': Sys, c: ChanRef, n: nat)
    requires Inv(s) && Next(s, Send, s') && c < |s.ledgers| && c < |s'.ledgers|
    ensures n in s.ledgers[c].got ==> n in s'.ledgers[c].got
    ensures n in s.ledgers[c].missed ==> n in s'.ledgers[c].missed
    ensures Entered(s', c, n) && !Entered(s, c, n) ==>
      && SendsTo(s, s', c, n)
      && (if HasRoom(s, c) then n in s'.ledgers[c].got else n in s'.ledgers[c].missed)
  {
  }

  // What is awaited is sent, or still awaited.
  lemma StepAwaited(s: Sys, l: Label, s': Sys, c: ChanRef, n: nat)
    requires Inv(s) && Next(s, l, s') && Awaited(s, c, n) && c < |s.ledgers| <= |s'.ledgers|
    ensures Awaited(s', c, n) || Entered(s', c, n)
  {
  }

  // Event n was not sent to channel c, and will not be.
  predicate PassedBy(s: Sys, c: ChanRef, n: nat)
  {
    n < |s.log| && !Entered(s, c, n) && (s.listener.Sending? && |s.log| == n + 1 ==> c !in s.listener.targets)
  }

  lemma StepPassedBy(s: Sys, l: Label, s': Sys, c: ChanRef, n: nat)
    requires Inv(s) && Next(s, l, s') && PassedBy(s, c, n) && |s.ledgers| <= |s'.ledgers|
    ensures PassedBy(s', c, n)
  {
    if c < |s.ledgers| { StepEntered(s, l, s', c, n); }
    StepListener(s, l, s');
  }

  // The log only grows, and only a snapshot makes the listener send to more.
  lemma StepListener(s: Sys, l: Label, s': Sys)
    requires Next(s, l, s')
    ensures |s'.log| == |s.log| + if l.Snapshot? then 1 else 0
    ensures s'.listener.Sending? && !l.Snapshot? ==>
      s.listener.Sending? && forall c :: c in s'.listener.targets ==> c in s.listener.targets
    ensures l.Subscribe? && |s'.ledgers| > |s.ledgers| ==> s'.ledgers[|s.ledgers|] == Ledger(|s.log|, [], map[])
    ensures |s.ledgers| <= |s'.ledgers| && (!l.Subscribe? ==> |s'.ledgers| == |s.ledgers|)
    ensures l.Subscribe? ==> |s'.ledgers| <= |s.ledgers| + 1
  {
  }

  // How the dispatch of step d stands with channel c: still awaited, or sent at a step, into the buffer when it had
  // room and missed when it was full; a channel that was no target gets and misses nothing.
  ghost predicate Dispatched(states: seq<Sys>, labels: seq<Label>, d: nat, i: nat, c: ChanRef)
    requires d < i < |states| && |states| == |labels| + 1 && labels[d].Snapshot?
  {
    var n := |states[d].log|;
    if c in labels[d].targets
    then Awaited(states[i], c, n) || exists m :: d < m < i && SentWithResult(states, labels, m, i, c, n)
    else PassedBy(states[i], c, n)
  }

  ghost predicate SentWithResult(states: seq<Sys>, labels: seq<Label>, m: nat, i: nat, c: ChanRef, n: nat)
  {
    && SentAt(states, labels, m, c, n) && i < |states| && c < |states[i].ledgers|
    && (if HasRoom(states[m], c) then n in states[i].ledgers[c].got else n in states[i].ledgers[c].missed)
  }

  lemma DispatchedAt(states: seq<Sys>, labels: seq<Label>, d: nat, c: ChanRef)
    requires IsRun(states, labels) && d < |labels| && labels[d].Snapshot?
    ensures Dispatched(states, labels, d, d + 1, c)
  {
    RunInv(states, labels, d);
    var s, s' := states[d], states[d + 1];
    assert Next(s, labels[d], s');
    if c < |s.ledgers| {
      assert LedgerHolds(s, c);
      assert !Entered(s, c, |s.log|);
    }
  }

  lemma DispatchedStep(states: seq<Sys>, labels: seq<Label>, d: nat, i: nat, c: ChanRef)
    requires IsRun(states, labels) && d < i < |labels| && labels[d].Snapshot? && Dispatched(states, labels, d, i, c)
    ensures Dispatched(states, labels, d, i + 1, c)
  {
    RunInv(states, labels, i);
    var s, l, s', n := states[i], labels[i], states[i + 1], |states[d].log|;
    assert Next(s, l, s');
    StepListener(s, l, s');
    if c !in labels[d].targets {
      StepPassedBy(s, l, s', c, n);
    } else if Awaited(s, c, n) {
      StepAwaited(s, l, s', c, n);
      StepEntered(s, l, s', c, n);
      if !Awaited(s', c, n) { assert SentWithResult(states, labels, i, i + 1, c, n); }
    } else {
      var m :| d < m < i && SentWithResult(states, labels, m, i, c, n);
      StepEntered(s, l, s', c, n);
      assert SentWithResult(states, labels, m, i + 1, c, n);
    }
  }

  lemma {:induction false} DispatchedFrom(states: seq<Sys>, labels: seq<Label>, d: nat, i: nat, c: ChanRef)
    requires IsRun(states, labels) && d < i < |states| && labels[d].Snapshot?
    ensures Dispatched(states, labels, d, i, c)
    decreases i
  {
    if i == d + 1 {
      DispatchedAt(states, labels, d, c);
    } else {
      DispatchedFrom(states, labels, d, i - 1, c);
      DispatchedStep(states, labels, d, i - 1, c);
    }
  }

  /** In every reachable state, what a subscriber has received and still has buffered is a subsequence of the events
      dispatched for its post since it subscribed, and its buffer is bounded. Every dispatch is accounted for, whether
      the channel is still open or not: an event is missing only if the channel was no target of its snapshot, or its
      send is still to come, or its buffer was full at that send. While it is open, it was a target of every
      dispatch. */
  lemma Delivery(states: seq<Sys>, labels: seq<Label>, i: nat, c: ChanRef)
    requires IsRun(states, labels) && i < |states| && c < |states[i].bus.chans|
    ensures var s := states[i];
      && |s.ledgers| == |s.bus.chans| == |s.bus.closures|
      && |s.bus.chans[c].buffer| <= s.bus.bufferSize
      && Increasing(s.ledgers[c].got)
      && |s.bus.chans[c].received + s.bus.chans[c].buffer| == |s.ledgers[c].got|
      && (forall k :: 0 <= k < |s.ledgers[c].got| ==>
            Concerns(s, c, s.ledgers[c].got[k])
            && (s.bus.chans[c].received + s.bus.chans[c].buffer)[k] == s.log[s.ledgers[c].got[k]])
      && (s.bus.chans[c].open ==>
            forall n :: Concerns(s, c, n) && !Awaited(s, c, n) && n !in s.ledgers[c].got ==>
              n in s.ledgers[c].missed && s.ledgers[c].missed[n] == s.bus.bufferSize)
    ensures forall d :: 0 <= d < i && labels[d].Snapshot? ==> Dispatched(states, labels, d, i, c)
  {
    RunInv(states, labels, i);
    assert LedgerHolds(states[i], c);
    forall d | 0 <= d < i && labels[d].Snapshot? ensures Dispatched(states, labels, d, i, c) {
      DispatchedFrom(states, labels, d, i, c);
    }
  }

  // Two subscribers never disagree on the order of two events that both got.
  lemma SameOrder(states: seq<Sys>, labels: seq<Label>, i: nat, c: ChanRef, d: ChanRef, a: nat, b: nat, x: nat, y: nat)
    requires IsRun(states, labels) && i < |states| && c < |states[i].bus.chans| && d < |states[i].bus.chans|
    requires |states[i].ledgers| == |states[i].bus.chans|
    requires a < |states[i].ledgers[c].got| && b < |states[i].ledgers[c].got|
    requires x < |states[i].ledgers[d].got| && y < |states[i].ledgers[d].got|
    requires states[i].ledgers[c].got[a] == states[i].ledgers[d].got[x]
    requires states[i].ledgers[c].got[b] == states[i].ledgers[d].got[y]
    ensures a < b <==> x < y
  {
    RunInv(states, labels, i);
    assert LedgerHolds(states[i], c) && LedgerHolds(states[i], d);
  }
}

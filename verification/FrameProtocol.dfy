/** Every interleaving of the sender, the accept thread and close over the shared return path. Each event is one
    critical section, or one blocking reply outside the lock; a run is any sequence of them, and an event that its
    thread is not ready for changes nothing. */
module FrameProtocol {
  import opened Wrappers
  import opened ReturnPath
  import opened Sequences

  /** Where the one send call in progress stands. */
  datatype Sender =
    | Resting
    | Serialized(frame: Frame)
    | Took(frame: Frame, taken: Option<nat>)
    | Replied(frame: Frame, used: nat, ok: bool)

  /** Where the accept thread stands. A flush holds the drained frames, the number it is done with, and the position
      of the first failed reply. */
  datatype Acceptor =
    | Polling
    | Holding(accepted: nat, parsed: bool)
    | BeforeFlush
    | Flushing(conn: nat, drained: seq<Frame>, done: nat, failed: Option<nat>)
    | Forwarding
    | Exited

  /** `acknowledged` are the frames for which send has returned Ok; `delivered` those a reply has carried.
      `discarded` are
      the frames close has cleared or a flush could not put back after it. `flushed` and `meanwhile` are what the latest
      flush delivered and what was queued since it drained. */
  datatype System = System(
    path: Path,
    shutdown: bool,
    sender: Sender,
    acceptor: Acceptor,
    acknowledged: seq<Frame>,
    delivered: seq<Frame>,
    discarded: seq<Frame>,
    flushed: seq<Frame>,
    meanwhile: seq<Frame>,
    nextConn: nat)

  const BOUND: System := System(OPENED, false, Resting, Polling, [], [], [], [], [], 0)

  datatype Event =
    | SendStart(frame: Frame)
    | SendTake
    | SendQueue
    | SendReply(ok: bool)
    | SendReturn
    | Accept(parsed: bool)
    | AcceptFails
    | Cache
    | FlushStart
    | FlushReply(ok: bool)
    | FlushRequeue
    | FlushEnd
    | Forward(received: bool)
    | RaiseShutdown
    | ClosePath

  // ---------------------------------------------------------------- the steps of send

  function Start(s: System, frame: Frame): System {
    if s.sender.Resting? && !s.shutdown && frame.encodes then s.(sender := Serialized(frame)) else s
  }

  function Take(s: System): System {
    if !s.sender.Serialized? then s
    else if s.path.closed then s.(sender := Resting)
    else s.(sender := Took(s.sender.frame, s.path.connection), path := Taken(s.path))
  }

  function Queue(s: System): System {
    if !s.sender.Took? || s.sender.taken.Some? then s
    else s.(sender := Resting,
            path := Pushed(s.path, s.sender.frame),
            acknowledged := s.acknowledged + [s.sender.frame],
            meanwhile := s.meanwhile + [s.sender.frame])
  }

  function Reply(s: System, ok: bool): System {
    if !s.sender.Took? || s.sender.taken.None? then s
    else s.(sender := Replied(s.sender.frame, s.sender.taken.value, ok),
            delivered := if ok then s.delivered + [s.sender.frame] else s.delivered)
  }

  function Return(s: System): System {
    if !s.sender.Replied? then s
    else if !s.sender.ok then s.(sender := Resting)
    else s.(sender := Resting,
            path := Recached(s.path, s.sender.used),
            acknowledged := s.acknowledged + [s.sender.frame])
  }

  // ---------------------------------------------------------------- the steps of the accept thread

  function Admit(s: System, parsed: bool): System {
    if !s.acceptor.Polling? then s
    else if s.shutdown then s.(acceptor := Exited)
    else s.(acceptor := Holding(s.nextConn, parsed), nextConn := s.nextConn + 1)
  }

  /** An error of the listener ends the thread; it looks at the shutdown flag first. */
  function Abort(s: System): System {
    if s.acceptor.Polling? then s.(acceptor := Exited) else s
  }

  function Store(s: System): System {
    if !s.acceptor.Holding? then s
    else s.(path := Cached(s.path, s.acceptor.accepted), acceptor := if s.acceptor.parsed then BeforeFlush else Polling)
  }

  function Drain(s: System): System {
    if !s.acceptor.BeforeFlush? then s
    else if !Flushable(s.path) then s.(acceptor := Forwarding)
    else s.(acceptor := Flushing(s.path.connection.value, s.path.pending, 0, None),
            path := Drained(s.path), flushed := [], meanwhile := [])
  }

  /** The reply with the next drained frame; a frame that does not serialize would be dropped here. */
  function Deliver(s: System, ok: bool): System {
    var f := s.acceptor;
    if !f.Flushing? || f.failed.Some? || f.done >= |f.drained| then s
    else if !f.drained[f.done].encodes then s.(acceptor := f.(done := f.done + 1))
    else if !ok then s.(acceptor := f.(failed := Some(f.done)))
    else s.(acceptor := f.(done := f.done + 1),
            delivered := s.delivered + [f.drained[f.done]],
            flushed := s.flushed + [f.drained[f.done]])
  }

  /** After a failed reply every remaining frame goes back to the front, one at a time. */
  function PutBack(s: System): System {
    var f := s.acceptor;
    if !f.Flushing? || f.failed.None? || f.done >= |f.drained| then s
    else s.(acceptor := f.(done := f.done + 1),
            path := Requeued(s.path, f.drained[f.done]),
            discarded := if s.path.closed then s.discarded + [f.drained[f.done]] else s.discarded)
  }

  function Finish(s: System): System {
    var f := s.acceptor;
    if !f.Flushing? || f.done < |f.drained| then s
    else s.(acceptor := Forwarding, path := if f.failed.None? then Recached(s.path, f.conn) else s.path)
  }

  function Forwarded(s: System, received: bool): System {
    if s.acceptor.Forwarding? then s.(acceptor := if received then Polling else Exited) else s
  }

  // ---------------------------------------------------------------- close, and all of them

  /** close() runs when the transport is dropped: send borrows it exclusively, so no send is in progress. */
  function Raise(s: System): System {
    if s.sender.Resting? then s.(shutdown := true) else s
  }

  function Shut(s: System): System {
    if s.shutdown && s.sender.Resting? then s.(path := Closing(s.path), discarded := s.discarded + s.path.pending) else s
  }

  function Step(s: System, e: Event): System {
    match e
    case SendStart(frame) => Start(s, frame)
    case SendTake => Take(s)
    case SendQueue => Queue(s)
    case SendReply(ok) => Reply(s, ok)
    case SendReturn => Return(s)
    case Accept(parsed) => Admit(s, parsed)
    case AcceptFails => Abort(s)
    case Cache => Store(s)
    case FlushStart => Drain(s)
    case FlushReply(ok) => Deliver(s, ok)
    case FlushRequeue => PutBack(s)
    case FlushEnd => Finish(s)
    case Forward(received) => Forwarded(s, received)
    case RaiseShutdown => Raise(s)
    case ClosePath => Shut(s)
  }

  function Run(s: System, events: seq<Event>): System {
    if events == [] then s else Step(Run(s, events[..|events| - 1]), events[|events| - 1])
  }

  // ---------------------------------------------------------------- where frames and connections are

  /** The frames a running flush still has to deliver or put back. */
  function InFlush(s: System): seq<Frame> {
    if s.acceptor.Flushing? && s.acceptor.done <= |s.acceptor.drained| then s.acceptor.drained[s.acceptor.done..] else []
  }

  /** The frame of a send that has been delivered but has not returned. */
  function Unreturned(s: System): seq<Frame> {
    if s.sender.Replied? && s.sender.ok then [s.sender.frame] else []
  }

  function HandedOver(s: System): multiset<Frame> {
    multiset(s.acknowledged) + multiset(Unreturned(s))
  }

  function Accounted(s: System): multiset<Frame> {
    multiset(s.delivered) + multiset(s.path.pending) + multiset(InFlush(s)) + multiset(s.discarded)
  }

  ghost predicate Conserved(s: System) {
    HandedOver(s) == Accounted(s) && (!s.path.closed ==> s.discarded == [])
  }

  ghost predicate QueuedEncode(s: System) {
    && AllEncode(s.path.pending) && AllEncode(InFlush(s))
    && (s.acceptor.Flushing? ==> AllEncode(s.acceptor.drained))
    && (s.sender.Resting? || s.sender.frame.encodes)
  }

  /** The position the running flush has delivered up to. */
  function Delivered(f: Acceptor): nat
    requires f.Flushing?
  {
    match f.failed case Some(k) => k case None => f.done
  }

  /** A running flush has delivered a prefix in order; what it put back stands reversed before what was queued
      meanwhile. */
  ghost predicate FlushInOrder(s: System) {
    s.acceptor.Flushing? ==>
      var f := s.acceptor;
      && Delivered(f) <= f.done <= |f.drained|
      && (f.failed.Some? ==> f.failed.value < |f.drained|)
      && s.flushed == f.drained[..Delivered(f)]
      && (!s.path.closed ==> s.path.pending == Reverse(f.drained[Delivered(f)..f.done]) + s.meanwhile)
  }

  function InSend(s: System): Option<nat> {
    match s.sender
    case Took(_, c) => c
    case Replied(_, c, _) => Some(c)
    case _ => None
  }

  function InAccept(s: System): Option<nat> {
    match s.acceptor
    case Holding(c, _) => Some(c)
    case Flushing(c, _, _, _) => Some(c)
    case _ => None
  }

  predicate Apart(a: Option<nat>, b: Option<nat>) {
    a.Some? && b.Some? ==> a.value != b.value
  }

  predicate Issued(a: Option<nat>, next: nat) {
    a.Some? ==> a.value < next
  }

  /** No connection is in two places, so no two replies run on one connection at once. */
  ghost predicate ConnectionsApart(s: System) {
    var slot, send, accept := s.path.connection, InSend(s), InAccept(s);
    && Issued(slot, s.nextConn) && Issued(send, s.nextConn) && Issued(accept, s.nextConn)
    && Apart(slot, send) && Apart(slot, accept) && Apart(send, accept)
  }

  /** A closed path holds nothing, and no send is left to put anything there. */
  ghost predicate ClosedIsEmpty(s: System) {
    s.path.closed ==> s.shutdown && s.sender.Resting? && s.path.connection == None && s.path.pending == []
  }

  ghost predicate Inv(s: System) {
    Conserved(s) && QueuedEncode(s) && FlushInOrder(s) && ConnectionsApart(s) && ClosedIsEmpty(s)
  }

  // ---------------------------------------------------------------- each step keeps them

  lemma SameFlush(s: System, t: System)
    requires s.acceptor == t.acceptor
    ensures InFlush(s) == InFlush(t)
  {
  }

  lemma QueueConserves(s: System)
    requires Conserved(s)
    ensures Conserved(Queue(s))
  {
    SameFlush(s, Queue(s));
    hide InFlush;
    if Queue(s) != s {
      assert HandedOver(Queue(s)) == HandedOver(s) + multiset{s.sender.frame};
      assert Accounted(Queue(s)) == Accounted(s) + multiset{s.sender.frame};
    }
  }

  lemma ReplyConserves(s: System, ok: bool)
    requires Conserved(s)
    ensures Conserved(Reply(s, ok))
  {
    SameFlush(s, Reply(s, ok));
    hide InFlush;
    if Reply(s, ok) != s && ok {
      assert HandedOver(Reply(s, ok)) == HandedOver(s) + multiset{s.sender.frame};
      assert Accounted(Reply(s, ok)) == Accounted(s) + multiset{s.sender.frame};
    }
  }

  lemma ReturnConserves(s: System)
    requires Conserved(s)
    ensures Conserved(Return(s))
  {
    hide InFlush, HandedOver, Unreturned, Return;
    ReturnHandsOver(s);
    ReturnMoves(s);
    SameFlush(s, Return(s));
  }

  lemma ReturnMoves(s: System)
    ensures var t := Return(s);
      && t.delivered == s.delivered && t.discarded == s.discarded && t.acceptor == s.acceptor
      && t.path.pending == s.path.pending && t.path.closed == s.path.closed
  {
  }

  lemma ReturnHandsOver(s: System)
    ensures HandedOver(Return(s)) == HandedOver(s)
  {
    hide Recached;
  }

  /** A step that moves no frame. */
  lemma Unmoved(s: System, t: System)
    requires Conserved(s)
    requires t.acknowledged == s.acknowledged && t.delivered == s.delivered && t.discarded == s.discarded
    requires t.path.pending == s.path.pending && t.path.closed == s.path.closed
    requires InFlush(t) == InFlush(s) && Unreturned(t) == Unreturned(s)
    ensures Conserved(t)
  {
    hide InFlush, Unreturned;
  }

  lemma TakeConserves(s: System, frame: Frame)
    requires Conserved(s)
    ensures Conserved(Start(s, frame)) && Conserved(Take(s))
  {
    SameFlush(s, Start(s, frame));
    SameFlush(s, Take(s));
    hide InFlush, Conserved;
    Unmoved(s, Start(s, frame));
    Unmoved(s, Take(s));
  }

  lemma AcceptConserves(s: System, b: bool)
    requires Conserved(s)
    ensures Conserved(Admit(s, b)) && Conserved(Abort(s)) && Conserved(Store(s)) && Conserved(Forwarded(s, b))
  {
    hide Conserved;
    Unmoved(s, Abort(s));
    Unmoved(s, Admit(s, b));
    Unmoved(s, Store(s));
    Unmoved(s, Forwarded(s, b));
  }

  lemma DrainConserves(s: System)
    requires Conserved(s)
    ensures Conserved(Drain(s))
  {
    if Drain(s) != s {
      assert s.path.pending[0..] == s.path.pending;
      assert Accounted(Drain(s)) == Accounted(s);
    }
  }

  /** One frame less for the flush to see to. */
  lemma FlushAdvances(s: System, t: System)
    requires s.acceptor.Flushing? && s.acceptor.done < |s.acceptor.drained|
    requires t.acceptor.Flushing? && t.acceptor.drained == s.acceptor.drained && t.acceptor.done == s.acceptor.done + 1
    ensures multiset(InFlush(s)) == multiset{s.acceptor.drained[s.acceptor.done]} + multiset(InFlush(t))
  {
    assert InFlush(s) == [s.acceptor.drained[s.acceptor.done]] + InFlush(t);
  }

  lemma DeliverConserves(s: System, ok: bool)
    requires Conserved(s) && QueuedEncode(s)
    ensures Conserved(Deliver(s, ok))
  {
    var f, t := s.acceptor, Deliver(s, ok);
    if t != s {
      assert f.drained[f.done].encodes;
      hide QueuedEncode;
      if ok {
        FlushAdvances(s, t);
        hide InFlush;
      } else {
        assert InFlush(t) == InFlush(s);
      }
      assert Accounted(t) == Accounted(s);
    }
  }

  lemma PutBackConserves(s: System)
    requires Conserved(s)
    ensures Conserved(PutBack(s))
  {
    if PutBack(s) != s {
      FlushAdvances(s, PutBack(s));
      hide InFlush;
      assert Accounted(PutBack(s)) == Accounted(s);
    }
  }

  lemma FinishConserves(s: System)
    requires Conserved(s)
    ensures Conserved(Finish(s))
  {
    if Finish(s) != s {
      assert InFlush(s) == [] == InFlush(Finish(s));
    }
  }

  lemma ShutConserves(s: System)
    requires Conserved(s)
    ensures Conserved(Shut(s)) && Conserved(Raise(s))
  {
    SameFlush(s, Shut(s));
    SameFlush(s, Raise(s));
    hide InFlush;
    assert Accounted(Shut(s)) == Accounted(s);
  }

  lemma StepConserves(s: System, e: Event)
    requires Conserved(s) && QueuedEncode(s)
    ensures Conserved(Step(s, e))
  {
    hide Conserved, Start, Take, Queue, Reply, Return, Admit, Abort, Store, Drain, Deliver, PutBack, Finish, Forwarded, Shut;
    match e
    case SendStart(frame) => TakeConserves(s, frame);
    case SendTake => TakeConserves(s, Frame(0, true));
    case SendQueue => QueueConserves(s);
    case SendReply(ok) => ReplyConserves(s, ok);
    case SendReturn => ReturnConserves(s);
    case Accept(parsed) => AcceptConserves(s, parsed);
    case AcceptFails => AcceptConserves(s, true);
    case Cache => AcceptConserves(s, true);
    case FlushStart => DrainConserves(s);
    case FlushReply(ok) => DeliverConserves(s, ok);
    case FlushRequeue => PutBackConserves(s);
    case FlushEnd => FinishConserves(s);
    case Forward(received) => AcceptConserves(s, received);
    case RaiseShutdown => ShutConserves(s);
    case ClosePath => ShutConserves(s);
  }

  lemma SendEncodes(s: System, frame: Frame, ok: bool)
    requires QueuedEncode(s)
    ensures QueuedEncode(Start(s, frame)) && QueuedEncode(Take(s)) && QueuedEncode(Queue(s))
    ensures QueuedEncode(Reply(s, ok)) && QueuedEncode(Return(s))
  {
    SameFlush(s, Start(s, frame));
    SameFlush(s, Take(s));
    SameFlush(s, Queue(s));
    SameFlush(s, Reply(s, ok));
    SameFlush(s, Return(s));
    hide InFlush;
  }

  lemma FlushEncodes(s: System, ok: bool)
    requires QueuedEncode(s)
    ensures QueuedEncode(Deliver(s, ok)) && QueuedEncode(PutBack(s)) && QueuedEncode(Finish(s))
  {
  }

  lemma AcceptEncodes(s: System, b: bool)
    requires QueuedEncode(s)
    ensures QueuedEncode(Admit(s, b)) && QueuedEncode(Store(s)) && QueuedEncode(Drain(s)) && QueuedEncode(Forwarded(s, b))
    ensures QueuedEncode(Raise(s)) && QueuedEncode(Shut(s)) && QueuedEncode(Abort(s))
  {
  }

  lemma StepEncodes(s: System, e: Event)
    requires QueuedEncode(s)
    ensures QueuedEncode(Step(s, e))
  {
    hide QueuedEncode;
    hide Start, Take, Queue, Reply, Return, Admit, Abort, Store, Drain, Deliver, PutBack, Finish, Forwarded, Raise, Shut;
    match e
    case SendStart(frame) => SendEncodes(s, frame, true);
    case SendReply(ok) => SendEncodes(s, Frame(0, true), ok);
    case SendTake => SendEncodes(s, Frame(0, true), true);
    case SendQueue => SendEncodes(s, Frame(0, true), true);
    case SendReturn => SendEncodes(s, Frame(0, true), true);
    case FlushReply(ok) => FlushEncodes(s, ok);
    case FlushRequeue => FlushEncodes(s, true);
    case FlushEnd => FlushEncodes(s, true);
    case Accept(parsed) => AcceptEncodes(s, parsed);
    case Forward(received) => AcceptEncodes(s, received);
    case _ => AcceptEncodes(s, true);
  }

  lemma DeliverKeepsOrder(s: System, ok: bool)
    requires FlushInOrder(s) && QueuedEncode(s)
    ensures FlushInOrder(Deliver(s, ok))
  {
    var f := s.acceptor;
    if Deliver(s, ok) != s {
      assert f.drained[f.done].encodes;
      assert f.drained[..f.done] + [f.drained[f.done]] == f.drained[..f.done + 1];
      assert f.drained[f.done..f.done] == [] == f.drained[f.done + 1..f.done + 1];
    }
    hide Reverse, QueuedEncode;
  }

  lemma PutBackKeepsOrder(s: System)
    requires FlushInOrder(s)
    ensures FlushInOrder(PutBack(s))
  {
    var f := s.acceptor;
    if PutBack(s) != s {
      var k := Delivered(f);
      assert Reverse(f.drained[k..f.done + 1]) == [f.drained[f.done]] + Reverse(f.drained[k..f.done]);
    }
    hide Reverse;
  }

  lemma SendKeepsOrder(s: System, frame: Frame, ok: bool)
    requires FlushInOrder(s)
    ensures FlushInOrder(Start(s, frame)) && FlushInOrder(Take(s)) && FlushInOrder(Queue(s))
    ensures FlushInOrder(Reply(s, ok)) && FlushInOrder(Return(s))
  {
    hide Reverse;
  }

  lemma AcceptKeepsOrder(s: System, b: bool)
    requires FlushInOrder(s)
    ensures FlushInOrder(Admit(s, b)) && FlushInOrder(Store(s)) && FlushInOrder(Drain(s)) && FlushInOrder(Forwarded(s, b))
    ensures FlushInOrder(Finish(s)) && FlushInOrder(Raise(s)) && FlushInOrder(Shut(s)) && FlushInOrder(Abort(s))
  {
    assert Reverse(s.path.pending[0..0]) == [];
    hide Reverse;
  }

  lemma StepKeepsOrder(s: System, e: Event)
    requires FlushInOrder(s) && QueuedEncode(s)
    ensures FlushInOrder(Step(s, e))
  {
    hide FlushInOrder, QueuedEncode;
    hide Start, Take, Queue, Reply, Return, Admit, Abort, Store, Drain, Deliver, PutBack, Finish, Forwarded, Raise, Shut;
    match e
    case SendStart(frame) => SendKeepsOrder(s, frame, true);
    case SendReply(ok) => SendKeepsOrder(s, Frame(0, true), ok);
    case SendTake => SendKeepsOrder(s, Frame(0, true), true);
    case SendQueue => SendKeepsOrder(s, Frame(0, true), true);
    case SendReturn => SendKeepsOrder(s, Frame(0, true), true);
    case FlushReply(ok) => DeliverKeepsOrder(s, ok);
    case FlushRequeue => PutBackKeepsOrder(s);
    case Accept(parsed) => AcceptKeepsOrder(s, parsed);
    case Forward(received) => AcceptKeepsOrder(s, received);
    case _ => AcceptKeepsOrder(s, true);
  }

  lemma StepKeepsConnections(s: System, e: Event)
    requires ConnectionsApart(s) && ClosedIsEmpty(s)
    ensures ConnectionsApart(Step(s, e)) && ClosedIsEmpty(Step(s, e))
  {
  }

  lemma StepKeepsInv(s: System, e: Event)
    requires Inv(s)
    ensures Inv(Step(s, e))
  {
    hide Conserved, QueuedEncode, FlushInOrder, ConnectionsApart, ClosedIsEmpty, Step;
    StepConserves(s, e);
    StepEncodes(s, e);
    StepKeepsOrder(s, e);
    StepKeepsConnections(s, e);
  }

  lemma {:induction false} RunKeepsInv(events: seq<Event>)
    ensures Inv(Run(BOUND, events))
  {
    if events != [] {
      RunKeepsInv(events[..|events| - 1]);
      StepKeepsInv(Run(BOUND, events[..|events| - 1]), events[|events| - 1]);
    }
  }

  // ---------------------------------------------------------------- over whole runs

  /** While the transport is open, the frames acknowledged (with one delivered send still to return) are exactly
      those delivered, queued, or in a running flush. At any time none of them is delivered or kept twice. */
  lemma FramesAreConserved(events: seq<Event>)
    ensures var s := Run(BOUND, events);
      && (!s.path.closed ==>
            multiset(s.acknowledged) + multiset(Unreturned(s)) ==
            multiset(s.delivered) + multiset(s.path.pending) + multiset(InFlush(s)))
      && multiset(s.delivered) + multiset(s.path.pending) + multiset(InFlush(s)) <=
           multiset(s.acknowledged) + multiset(Unreturned(s))
  {
    RunKeepsInv(events);
  }

  /** Once closed, the path stays closed with an empty slot and an empty queue, whatever happens next. */
  lemma {:induction false} ClosedForever(events: seq<Event>, more: seq<Event>)
    requires Run(BOUND, events).path.closed
    ensures Run(BOUND, events + more).path == Path(None, [], true)
    decreases more
  {
    RunKeepsInv(events + more);
    if more == [] {
      assert events + more == events;
    } else {
      var all, before := events + more, more[..|more| - 1];
      assert all[..|all| - 1] == events + before;
      ClosedForever(events, before);
      hide Inv;
      StaysClosed(Run(BOUND, events + before), all[|all| - 1]);
    }
  }

  lemma StaysClosed(s: System, e: Event)
    requires s.path.closed
    ensures Step(s, e).path.closed
  {
  }

  /** What a finished flush leaves behind: the frames before the first failed reply went out in queue order; the rest
      stand reversed at the head of the queue, before whatever was queued since the drain. */
  lemma FlushOutcome(events: seq<Event>)
    requires var s := Run(BOUND, events);
      s.acceptor.Flushing? && s.acceptor.done == |s.acceptor.drained| && !s.path.closed
    ensures var s, t := Run(BOUND, events), Run(BOUND, events + [FlushEnd]);
      var f := s.acceptor;
      var k := if f.failed.Some? then f.failed.value else |f.drained|;
      && k <= |f.drained|
      && t.acceptor == Forwarding
      && t.flushed == f.drained[..k]
      && t.path.pending == Reverse(f.drained[k..]) + s.meanwhile
      && (f.failed.None? ==> t.path.connection.Some?)
  {
    RunKeepsInv(events);
    var f := Run(BOUND, events).acceptor;
    assert f.drained[Delivered(f)..f.done] == f.drained[Delivered(f)..];
    assert (events + [FlushEnd])[..|events|] == events;
  }

  /** The branch of the flush that drops a frame it cannot serialize is never taken. */
  lemma NothingDroppedByFlush(events: seq<Event>)
    requires Run(BOUND, events).acceptor.Flushing?
    ensures AllEncode(InFlush(Run(BOUND, events)))
  {
    RunKeepsInv(events);
  }

  /** A send call that nothing interrupts runs to the result that SharedPath.Send computes. */
  lemma SendUninterrupted(s: System, frame: Frame, reply: bool)
    requires s.sender.Resting? && (s.path.closed ==> s.path.connection == None)
    ensures var t := Step(Step(Step(Step(Step(s, SendStart(frame)), SendTake), SendQueue), SendReply(reply)), SendReturn);
      var refused := s.shutdown || !frame.encodes || s.path.closed;
      && t.sender == Resting
      && t.path == (if refused then s.path
                    else if s.path.connection.None? then Pushed(s.path, frame)
                    else if reply then s.path else Taken(s.path))
      && t.acknowledged == s.acknowledged + (if !refused && (s.path.connection.None? || reply) then [frame] else [])
      && t.delivered == s.delivered + (if !refused && s.path.connection.Some? && reply then [frame] else [])
  {
  }

  // ---------------------------------------------------------------- a flush under given replies and arrivals

  /** The events of sends that find no connection and queue their frames. */
  function Queueing(frames: seq<Frame>): seq<Event> {
    if frames == [] then []
    else Queueing(frames[..|frames| - 1]) + [SendStart(frames[|frames| - 1]), SendTake, SendQueue]
  }

  /** One turn of the flush loop: what the sender queues before it, then a reply, a failed one put back, or a frame
      put back after an earlier failure. */
  function Turn(replies: seq<bool>, arrivals: seq<seq<Frame>>, i: nat): seq<Event>
    requires i < |replies| == |arrivals|
  {
    Queueing(arrivals[i]) +
    if FirstFailure(replies, i) < i then [FlushRequeue]
    else if replies[i] then [FlushReply(true)]
    else [FlushReply(false), FlushRequeue]
  }

  function Turns(replies: seq<bool>, arrivals: seq<seq<Frame>>, n: nat): seq<Event>
    requires n <= |replies| == |arrivals|
  {
    if n == 0 then [] else Turns(replies, arrivals, n - 1) + Turn(replies, arrivals, n - 1)
  }

  lemma {:induction false} RunSplits(s: System, events: seq<Event>, more: seq<Event>)
    ensures Run(s, events + more) == Run(Run(s, events), more)
    decreases more
  {
    if more == [] {
      assert events + more == events;
    } else {
      assert (events + more)[..|events + more| - 1] == events + more[..|more| - 1];
      RunSplits(s, events, more[..|more| - 1]);
    }
  }

  lemma RunOne(s: System, e: Event)
    ensures Run(s, [e]) == Step(s, e)
  {
    assert [e][..0] == [];
    hide Step;
    assert Run(s, []) == s;
  }

  function WithQueued(s: System, frames: seq<Frame>): System {
    s.(path := s.path.(pending := s.path.pending + frames),
       acknowledged := s.acknowledged + frames,
       meanwhile := s.meanwhile + frames)
  }

  predicate MayQueue(s: System) {
    s.sender.Resting? && !s.shutdown && !s.path.closed && s.path.connection.None?
  }

  lemma QueuesOne(s: System, frame: Frame)
    requires MayQueue(s) && frame.encodes
    ensures Run(s, [SendStart(frame), SendTake, SendQueue]) == WithQueued(s, [frame])
  {
    RunSplits(s, [SendStart(frame)], [SendTake, SendQueue]);
    RunOne(s, SendStart(frame));
    var t := Start(s, frame);
    RunSplits(t, [SendTake], [SendQueue]);
    RunOne(t, SendTake);
    RunOne(Take(t), SendQueue);
    assert [SendStart(frame)] + [SendTake, SendQueue] == [SendStart(frame), SendTake, SendQueue];
    assert [SendTake] + [SendQueue] == [SendTake, SendQueue];
    hide Run;
  }

  lemma {:induction false} QueuesAll(s: System, frames: seq<Frame>)
    requires MayQueue(s) && AllEncode(frames)
    ensures Run(s, Queueing(frames)) == WithQueued(s, frames)
  {
    if frames == [] {
      assert Run(s, []) == s;
    } else {
      var before, last := frames[..|frames| - 1], frames[|frames| - 1];
      QueuesAll(s, before);
      RunSplits(s, Queueing(before), [SendStart(last), SendTake, SendQueue]);
      QueuesOne(WithQueued(s, before), last);
      hide Run, Queueing;
      assert before + [last] == frames;
      assert s.path.pending + before + [last] == s.path.pending + frames;
      assert s.acknowledged + before + [last] == s.acknowledged + frames;
      assert s.meanwhile + before + [last] == s.meanwhile + frames;
    }
  }

  /** The state after i turns of a flush that started by draining s. */
  function Turned(s: System, replies: seq<bool>, arrivals: seq<seq<Frame>>, i: nat): System
    requires s.path.connection.Some? && i <= |s.path.pending| == |replies| == |arrivals|
  {
    var k, drained, queued := FirstFailure(replies, i), s.path.pending, Concat(arrivals[..i]);
    s.(path := Path(None, Reverse(drained[k..i]) + queued, false),
       acceptor := Flushing(s.path.connection.value, drained, i, if k < i then Some(k) else None),
       acknowledged := s.acknowledged + queued,
       delivered := s.delivered + drained[..k],
       flushed := drained[..k],
       meanwhile := queued)
  }

  /** The state of turn i with the frames that arrive in it already queued. */
  function Arrived(s: System, replies: seq<bool>, arrivals: seq<seq<Frame>>, i: nat): System
    requires s.path.connection.Some? && i < |s.path.pending| == |replies| == |arrivals|
  {
    WithQueued(Turned(s, replies, arrivals, i), arrivals[i])
  }

  lemma NextFailure(replies: seq<bool>, i: nat)
    requires i < |replies|
    ensures var k := FirstFailure(replies, i);
      FirstFailure(replies, i + 1) == if k < i then k else if replies[i] then i + 1 else i
  {
  }

  lemma Requeues(frame: Frame, back: seq<Frame>, queued: seq<Frame>, more: seq<Frame>)
    ensures [frame] + (back + queued + more) == [frame] + back + (queued + more)
  {
  }

  lemma Reassociate(a: seq<Frame>, b: seq<Frame>, c: seq<Frame>)
    ensures a + b + c == a + (b + c)
  {
  }

  /** What one turn adds to the queue, behind it and in front of it. */
  lemma NextQueue(s: System, replies: seq<bool>, arrivals: seq<seq<Frame>>, i: nat)
    requires s.path.connection.Some? && i < |s.path.pending| == |replies| == |arrivals|
    ensures var q, t := Arrived(s, replies, arrivals, i), Turned(s, replies, arrivals, i + 1);
      && t.acknowledged == q.acknowledged && t.meanwhile == q.meanwhile
      && t.path.pending == if FirstFailure(replies, i) == i && replies[i] then q.path.pending
                           else [s.path.pending[i]] + q.path.pending
  {
    var k, drained := FirstFailure(replies, i), s.path.pending;
    NextFailure(replies, i);
    OneMore(drained, k, i, arrivals);
    hide FirstFailure, Concat, Reverse;
    var queued, more := Concat(arrivals[..i]), arrivals[i];
    Reassociate(s.acknowledged, queued, more);
    if k == i && replies[i] {
      assert drained[i..i] == drained[i + 1..i + 1];
      Reassociate(Reverse(drained[i..i]), queued, more);
    } else {
      Requeues(drained[i], Reverse(drained[k..i]), queued, more);
    }
  }

  lemma DeliveredBy(s: System, replies: seq<bool>, arrivals: seq<seq<Frame>>, i: nat)
    requires s.path.connection.Some? && i < |s.path.pending| == |replies| == |arrivals|
    ensures var q, t := Arrived(s, replies, arrivals, i), Turned(s, replies, arrivals, i + 1);
      var k, l, drained := FirstFailure(replies, i), FirstFailure(replies, i + 1), s.path.pending;
      && q.flushed == drained[..k] && q.delivered == s.delivered + drained[..k]
      && t.flushed == drained[..l] && t.delivered == s.delivered + drained[..l]
  {
    hide FirstFailure, Concat, Reverse;
  }

  /** What one turn delivers. */
  lemma NextDelivery(s: System, replies: seq<bool>, arrivals: seq<seq<Frame>>, i: nat)
    requires s.path.connection.Some? && i < |s.path.pending| == |replies| == |arrivals|
    ensures var q, t := Arrived(s, replies, arrivals, i), Turned(s, replies, arrivals, i + 1);
      if FirstFailure(replies, i) == i && replies[i] then
        t.flushed == q.flushed + [s.path.pending[i]] && t.delivered == q.delivered + [s.path.pending[i]]
      else t.flushed == q.flushed && t.delivered == q.delivered
  {
    hide FirstFailure, Arrived, Turned;
    var drained := s.path.pending;
    NextFailure(replies, i);
    DeliveredBy(s, replies, arrivals, i);
    if FirstFailure(replies, i) == i && replies[i] {
      assert drained[..i] + [drained[i]] == drained[..i + 1];
      Reassociate(s.delivered, drained[..i], [drained[i]]);
    }
  }

  /** The rest of the state a turn starts from and ends in. */
  lemma TurnedElse(s: System, replies: seq<bool>, arrivals: seq<seq<Frame>>, i: nat)
    requires s.path.connection.Some? && i < |s.path.pending| == |replies| == |arrivals|
    ensures var q, t, k := Arrived(s, replies, arrivals, i), Turned(s, replies, arrivals, i + 1), FirstFailure(replies, i);
      && q.acceptor == Flushing(s.path.connection.value, s.path.pending, i, if k < i then Some(k) else None)
      && q.path.connection == None && !q.path.closed
      && t == q.(path := Path(None, t.path.pending, false), acknowledged := t.acknowledged, meanwhile := t.meanwhile,
                 flushed := t.flushed, delivered := t.delivered,
                 acceptor := q.acceptor.(
                   done := i + 1,
                   failed := if k < i then Some(k) else if replies[i] then None else Some(i)))
  {
    NextFailure(replies, i);
    hide FirstFailure, Concat, Reverse;
  }

  /** Reply and requeue after the arrivals, for each way a turn can go. */
  lemma TurnGoes(s: System, replies: seq<bool>, arrivals: seq<seq<Frame>>, i: nat)
    requires s.path.connection.Some? && i < |s.path.pending| == |replies| == |arrivals| && s.path.pending[i].encodes
    ensures var q, t := Arrived(s, replies, arrivals, i), Turned(s, replies, arrivals, i + 1);
      && (FirstFailure(replies, i) < i ==> PutBack(q) == t)
      && (FirstFailure(replies, i) == i && replies[i] ==> Deliver(q, true) == t)
      && (FirstFailure(replies, i) == i && !replies[i] ==> PutBack(Deliver(q, false)) == t)
  {
    hide FirstFailure, Arrived, Turned;
    NextQueue(s, replies, arrivals, i);
    NextDelivery(s, replies, arrivals, i);
    TurnedElse(s, replies, arrivals, i);
  }

  lemma TurnsOnce(s: System, replies: seq<bool>, arrivals: seq<seq<Frame>>, i: nat)
    requires s.sender.Resting? && !s.shutdown && Flushable(s.path) && AllEncode(s.path.pending)
    requires i < |s.path.pending| == |replies| == |arrivals| && AllEncode(arrivals[i])
    ensures Run(Turned(s, replies, arrivals, i), Turn(replies, arrivals, i)) == Turned(s, replies, arrivals, i + 1)
  {
    var t, q := Turned(s, replies, arrivals, i), Arrived(s, replies, arrivals, i);
    QueuesAll(t, arrivals[i]);
    TurnGoes(s, replies, arrivals, i);
    hide Queueing, Run, Deliver, PutBack, Turned, WithQueued, FirstFailure, AllEncode, Flushable, MayQueue, Arrived;
    if FirstFailure(replies, i) < i {
      RunSplits(t, Queueing(arrivals[i]), [FlushRequeue]);
      RunOne(q, FlushRequeue);
    } else if replies[i] {
      RunSplits(t, Queueing(arrivals[i]), [FlushReply(true)]);
      RunOne(q, FlushReply(true));
    } else {
      RunSplits(t, Queueing(arrivals[i]), [FlushReply(false), FlushRequeue]);
      RunSplits(q, [FlushReply(false)], [FlushRequeue]);
      assert [FlushReply(false)] + [FlushRequeue] == [FlushReply(false), FlushRequeue];
      RunOne(q, FlushReply(false));
      RunOne(Deliver(q, false), FlushRequeue);
    }
  }

  lemma TurnedAtStart(s: System, replies: seq<bool>, arrivals: seq<seq<Frame>>)
    requires Flushable(s.path) && s.acceptor.BeforeFlush? && |s.path.pending| == |replies| == |arrivals|
    ensures Drain(s) == Turned(s, replies, arrivals, 0)
  {
    assert s.path.pending[0..0] == [] && s.path.pending[..0] == [] && arrivals[..0] == [];
    assert s.delivered + [] == s.delivered && s.acknowledged + [] == s.acknowledged;
  }

  lemma {:induction false} TurnsAll(s: System, replies: seq<bool>, arrivals: seq<seq<Frame>>, n: nat)
    requires s.sender.Resting? && !s.shutdown && Flushable(s.path) && AllEncode(s.path.pending) && s.acceptor.BeforeFlush?
    requires n <= |s.path.pending| == |replies| == |arrivals|
    requires forall i | 0 <= i < |arrivals| :: AllEncode(arrivals[i])
    ensures Run(Drain(s), Turns(replies, arrivals, n)) == Turned(s, replies, arrivals, n)
  {
    hide Turned, Turn, Drain, Step, AllEncode, Flushable;
    if n == 0 {
      TurnedAtStart(s, replies, arrivals);
    } else {
      TurnsAll(s, replies, arrivals, n - 1);
      RunSplits(Drain(s), Turns(replies, arrivals, n - 1), Turn(replies, arrivals, n - 1));
      TurnsOnce(s, replies, arrivals, n - 1);
    }
  }

  lemma AllTurned(s: System, replies: seq<bool>, arrivals: seq<seq<Frame>>)
    requires s.path.connection.Some? && !s.path.closed && |s.path.pending| == |replies| == |arrivals|
    ensures var drained, n := s.path.pending, |s.path.pending|;
      var k, t := FirstFailure(replies, n), Finish(Turned(s, replies, arrivals, n));
      && t.acceptor == Forwarding
      && t.flushed == drained[..k] && t.delivered == s.delivered + drained[..k]
      && t.path == Path(if k == n then s.path.connection else None, Reverse(drained[k..]) + Concat(arrivals), false)
      && t.acknowledged == s.acknowledged + Concat(arrivals)
  {
    hide Concat, Reverse, FirstFailure;
    var n := |s.path.pending|;
    var k := FirstFailure(replies, n);
    assert s.path.pending[k..n] == s.path.pending[k..] && arrivals[..n] == arrivals;
  }

  lemma FlushEnds(s: System, t: System)
    ensures Step(s, FlushStart) == Drain(s) && Step(t, FlushEnd) == Finish(t)
  {
  }

  lemma FlushRuns(s: System, replies: seq<bool>, arrivals: seq<seq<Frame>>)
    requires s.sender.Resting? && !s.shutdown && s.acceptor.BeforeFlush? && Flushable(s.path) && AllEncode(s.path.pending)
    requires |s.path.pending| == |replies| == |arrivals| && forall i | 0 <= i < |arrivals| :: AllEncode(arrivals[i])
    ensures Run(s, [FlushStart] + Turns(replies, arrivals, |s.path.pending|) + [FlushEnd]) ==
            Finish(Turned(s, replies, arrivals, |s.path.pending|))
  {
    var n := |s.path.pending|;
    var turns := Turns(replies, arrivals, n);
    TurnsAll(s, replies, arrivals, n);
    FlushEnds(s, Turned(s, replies, arrivals, n));
    hide Run, Turns, Turned, Drain, Finish, AllEncode, Flushable, Step;
    RunOne(s, FlushStart);
    RunSplits(s, [FlushStart], turns);
    RunSplits(s, [FlushStart] + turns, [FlushEnd]);
    RunOne(Turned(s, replies, arrivals, n), FlushEnd);
  }

  /** A flush run to its end under given replies, with given frames queued before each turn, has the effect that
      SharedPath.FlushPending states for a slot left empty. */
  lemma FlushUninterrupted(s: System, replies: seq<bool>, arrivals: seq<seq<Frame>>)
    requires s.sender.Resting? && !s.shutdown && s.acceptor.BeforeFlush? && AllEncode(s.path.pending)
    requires !s.path.closed && s.path.connection.Some? && s.path.pending != []
    requires |s.path.pending| == |replies| == |arrivals| && forall i | 0 <= i < |arrivals| :: AllEncode(arrivals[i])
    ensures var drained, n := s.path.pending, |s.path.pending|;
      var k := FirstFailure(replies, n);
      var t := Run(s, [FlushStart] + Turns(replies, arrivals, n) + [FlushEnd]);
      && t.acceptor == Forwarding
      && t.flushed == drained[..k] && t.delivered == s.delivered + drained[..k]
      && t.path == Path(if k == n then s.path.connection else None, Reverse(drained[k..]) + Concat(arrivals), false)
      && t.acknowledged == s.acknowledged + Concat(arrivals)
  {
    FlushRuns(s, replies, arrivals);
    AllTurned(s, replies, arrivals);
    hide *;
  }

  // ---------------------------------------------------------------- which connection the slot holds

  /** An accepted connection replaces whatever the slot of an open path holds, and moves no frame. */
  lemma NewestIsCached(s: System)
    requires s.acceptor.Holding? && !s.path.closed
    ensures var t := Step(s, Cache);
      && t == s.(path := s.path.(connection := Some(s.acceptor.accepted)), acceptor := t.acceptor)
      && t.acceptor == if s.acceptor.parsed then BeforeFlush else Polling
  {
  }

  /** So a send that follows with nothing between goes out on it, and leaves it in the slot exactly when the reply
      succeeds. */
  lemma NewestIsUsed(s: System, frame: Frame, reply: bool)
    requires s.acceptor.Holding? && !s.path.closed && s.sender.Resting? && !s.shutdown && frame.encodes
    ensures var t := Step(Step(Step(s, Cache), SendStart(frame)), SendTake);
      var u := Step(Step(t, SendReply(reply)), SendReturn);
      && t.sender == Took(frame, Some(s.acceptor.accepted)) && t.path.connection == None
      && u.sender == Resting && u.path.pending == s.path.pending && !u.path.closed
      && u.path.connection == (if reply then Some(s.acceptor.accepted) else None)
      && u.delivered == (if reply then s.delivered + [frame] else s.delivered)
  {
  }

  /** A send that comes back from a good reply, and a flush that ends well, leave the connection they find in the slot
      and fill an empty one with their own; after a failed reply they leave the slot alone. */
  lemma ComesBack(s: System)
    requires !s.path.closed
    ensures var t := Step(s, SendReturn);
      s.sender.Replied? ==>
        && t.sender == Resting && t.path.pending == s.path.pending && !t.path.closed
        && t.path.connection == if s.sender.ok && s.path.connection == None then Some(s.sender.used) else s.path.connection
    ensures var f, t := s.acceptor, Step(s, FlushEnd);
      f.Flushing? && f.done == |f.drained| ==>
        && t.acceptor == Forwarding && t.path.pending == s.path.pending && !t.path.closed
        && t.path.connection == if f.failed.None? && s.path.connection == None then Some(f.conn) else s.path.connection
  {
  }

  /** One turn of the accept thread with nobody else at work: a message that parses is forwarded after its connection
      is in the slot and the queue, if there is one, has gone out on it. */
  lemma AcceptsOne(s: System)
    requires s.acceptor.Polling? && !s.shutdown && !s.path.closed
    ensures var t := Step(Step(Step(s, Accept(true)), Cache), FlushStart);
      if s.path.pending == [] then
        t == s.(path := s.path.(connection := Some(s.nextConn)), acceptor := Forwarding, nextConn := s.nextConn + 1)
      else
        && t.acceptor == Flushing(s.nextConn, s.path.pending, 0, None)
        && t.path == Path(None, [], false) && t.delivered == s.delivered
    ensures var t := Step(Step(s, Accept(false)), Cache);
      t == s.(path := s.path.(connection := Some(s.nextConn)), nextConn := s.nextConn + 1)
  {
  }

  /** A close waits for a send in progress. One that nothing interrupts empties slot and queue, clears what was queued,
      and leaves no send to be taken. */
  lemma CloseUninterrupted(s: System, frame: Frame)
    ensures !s.sender.Resting? ==> Step(s, RaiseShutdown) == s == Step(s, ClosePath)
    ensures var t := Step(Step(s, RaiseShutdown), ClosePath);
      s.sender.Resting? ==>
      && t == s.(shutdown := true, path := Path(None, [], true), discarded := s.discarded + s.path.pending)
      && Step(t, SendStart(frame)) == t
  {
  }

  /** The accept thread ends just when nobody receives what it forwards, when its listener fails, or at its next look at
      a raised shutdown, and stays ended. After a message that is received it goes on. */
  lemma AcceptEnds(s: System, e: Event)
    ensures Step(s, e).acceptor == Exited <==>
      || s.acceptor == Exited
      || (s.acceptor == Forwarding && e == Forward(false))
      || (s.acceptor == Polling && (e == AcceptFails || (s.shutdown && e.Accept?)))
    ensures s.acceptor == Forwarding ==> Step(s, Forward(true)).acceptor == Polling
  {
  }

  /** The newest connection can still lose its place: a send that took the one before it comes back while the flush
      holds the newest, and the flush then leaves the older one in the slot. */
  lemma OlderCanStay()
    ensures var f, g := Frame(1, true), Frame(2, true);
      var t := Run(BOUND, [SendStart(f), SendTake, SendQueue, Accept(true), Cache, SendStart(g), SendTake, FlushStart,
                           Forward(true), Accept(true), Cache, FlushStart, SendReply(true), SendReturn,
                           FlushReply(true), FlushEnd]);
      t.nextConn == 2 && t.path.connection == Some(0) && t.delivered == [g, f]
  {
    var f, g := Frame(1, true), Frame(2, true);
    var one := [SendStart(f), SendTake, SendQueue, Accept(true), Cache, SendStart(g), SendTake, FlushStart];
    var two := [Forward(true), Accept(true), Cache, FlushStart, SendReply(true), SendReturn, FlushReply(true), FlushEnd];
    assert one + two ==
      [SendStart(f), SendTake, SendQueue, Accept(true), Cache, SendStart(g), SendTake, FlushStart,
       Forward(true), Accept(true), Cache, FlushStart, SendReply(true), SendReturn, FlushReply(true), FlushEnd];
    RunSplits(BOUND, one, two);
    SendTookZero(f, g);
    RunEight(BOUND, one);
    FlushTookOne(f, g);
    RunEight(Run(BOUND, one), two);
    hide Run, Step;
  }

  lemma SendTookZero(f: Frame, g: Frame)
    requires f.encodes && g.encodes
    ensures Step(Step(Step(Step(Step(Step(Step(Step(BOUND, SendStart(f)), SendTake), SendQueue), Accept(true)), Cache),
                 SendStart(g)), SendTake), FlushStart) ==
            BOUND.(path := Path(None, [f], false), sender := Took(g, Some(0)), acceptor := Forwarding,
                   acknowledged := [f], meanwhile := [f], nextConn := 1)
  {
  }

  lemma FlushTookOne(f: Frame, g: Frame)
    requires f.encodes && g.encodes
    ensures var s := BOUND.(path := Path(None, [f], false), sender := Took(g, Some(0)), acceptor := Forwarding,
                            acknowledged := [f], meanwhile := [f], nextConn := 1);
      var t := Step(Step(Step(Step(Step(Step(Step(Step(s, Forward(true)), Accept(true)), Cache), FlushStart),
                    SendReply(true)), SendReturn), FlushReply(true)), FlushEnd);
      t.nextConn == 2 && t.path.connection == Some(0) && t.delivered == [g, f]
  {
  }

  lemma RunEight(s: System, e: seq<Event>)
    requires |e| == 8
    ensures Run(s, e) ==
      Step(Step(Step(Step(Step(Step(Step(Step(s, e[0]), e[1]), e[2]), e[3]), e[4]), e[5]), e[6]), e[7])
  {
    RunFour(s, e[..4]);
    RunFour(Run(s, e[..4]), e[4..]);
    RunSplits(s, e[..4], e[4..]);
    assert e[..4] + e[4..] == e;
    hide Step, Run;
  }

  lemma RunFour(s: System, e: seq<Event>)
    requires |e| == 4
    ensures Run(s, e) == Step(Step(Step(Step(s, e[0]), e[1]), e[2]), e[3])
  {
    hide Step;
    assert e[..3][..2] == e[..2] && e[..2][..1] == e[..1] && e[..1][..0] == [];
    RunOne(s, e[0]);
    assert e[..1] == [e[0]];
    assert Run(s, e[..2]) == Step(Run(s, e[..1]), e[1]);
    assert Run(s, e[..3]) == Step(Run(s, e[..2]), e[2]);
  }
}

/** The return path of the GIPS transport: one connection slot and a queue of frames, shared by the sender, the
    accept thread and close. The lock is released around every blocking reply. */
module ReturnPath {
  import opened Sequences
  import opened Wrappers

  /** An outbound message; `encodes` says whether serialization succeeds on it. */
  datatype Frame = Frame(id: int, encodes: bool)

  datatype Path = Path(connection: Option<nat>, pending: seq<Frame>, closed: bool)

  const OPENED: Path := Path(None, [], false)

  // ---------------------------------------------------------------- what each critical section does

  /** close(): the slot and the queue are emptied for good. */
  function Closing(p: Path): Path {
    Path(None, [], true)
  }

  /** send(): the connection is moved out for the length of the reply. */
  function Taken(p: Path): Path {
    p.(connection := None)
  }

  /** send() without a connection: the closed flag is not looked at again. */
  function Pushed(p: Path, frame: Frame): Path {
    p.(pending := p.pending + [frame])
  }

  /** After a good reply: the connection goes back unless the slot has been filled or closed. */
  function Recached(p: Path, connection: nat): Path {
    if !p.closed && p.connection.None? then p.(connection := Some(connection)) else p
  }

  /** cache_connection(): the accepted connection replaces whatever is there. */
  function Cached(p: Path, connection: nat): Path {
    if p.closed then p else p.(connection := Some(connection))
  }

  predicate Flushable(p: Path) {
    !p.closed && p.connection.Some? && p.pending != []
  }

  function Drained(p: Path): Path {
    p.(connection := None, pending := [])
  }

  function Requeued(p: Path, frame: Frame): Path {
    if p.closed then p else p.(pending := [frame] + p.pending)
  }

  // ---------------------------------------------------------------- sequences

  function Concat(arrivals: seq<seq<Frame>>): seq<Frame> {
    if arrivals == [] then [] else Concat(arrivals[..|arrivals| - 1]) + arrivals[|arrivals| - 1]
  }

  predicate AllEncode(frames: seq<Frame>) {
    forall i | 0 <= i < |frames| :: frames[i].encodes
  }

  /** The first reply that fails, or n. */
  function FirstFailure(replies: seq<bool>, n: nat): (k: nat)
    requires n <= |replies|
    ensures k <= n && (forall i | 0 <= i < k :: replies[i]) && (k < n ==> !replies[k])
  {
    if n == 0 then 0
    else var k := FirstFailure(replies, n - 1); if k < n - 1 then k else if replies[n - 1] then n else n - 1
  }

  /** The queue after the loop has gone over one more frame: left as it was, or with the frame put back first. */
  lemma OneMore(drained: seq<Frame>, k: nat, i: nat, arrivals: seq<seq<Frame>>)
    requires k <= i < |drained| == |arrivals|
    ensures Concat(arrivals[..i + 1]) == Concat(arrivals[..i]) + arrivals[i]
    ensures Reverse(drained[k..i + 1]) == [drained[i]] + Reverse(drained[k..i])
    ensures Reverse(drained[i..i]) == [] == Reverse(drained[i + 1..i + 1])
  {
    assert arrivals[..i + 1][..i] == arrivals[..i];
  }

  lemma NothingYet(drained: seq<Frame>, arrivals: seq<seq<Frame>>)
    ensures Reverse(drained[..0]) + Concat(arrivals[..0]) == []
  {
  }

  // ---------------------------------------------------------------- the object

  class SharedPath {
    var connection: Option<nat>
    var pending: seq<Frame>
    var closed: bool

    ghost function State(): Path
      reads this
    {
      Path(connection, pending, closed)
    }

    constructor ()
      ensures State() == OPENED
    {
      connection, pending, closed := None, [], false;
    }

    method Close()
      modifies this
      ensures State() == Closing(old(State()))
      ensures connection == None && pending == [] && closed
    {
      closed := true;
      connection := None;
      pending := [];
    }

    method CacheConnection(accepted: nat)
      modifies this
      ensures State() == Cached(old(State()), accepted)
      ensures pending == old(pending) && closed == old(closed)
      ensures connection == if closed then old(connection) else Some(accepted)
    {
      if closed {
        return;
      }
      connection := Some(accepted);
    }

    /** One call of send with nothing between its critical sections; `reply` is what the blocking reply returns.
        The interleaved form is the step system of FrameProtocol. */
    method Send(frame: Frame, shutdown: bool, reply: bool) returns (ok: bool, delivered: bool)
      modifies this
      ensures var p := old(State());
        var refused := shutdown || !frame.encodes || p.closed;
        && ok == (!refused && (p.connection.None? || reply))
        && delivered == (!refused && p.connection.Some? && reply)
        && State() == if refused then p
                      else if p.connection.None? then Pushed(p, frame)
                      else if reply then p else Taken(p)
    {
      if shutdown {
        return false, false;
      }
      if !frame.encodes {
        return false, false;
      }
      if closed {
        return false, false;
      }
      var taken := connection;
      connection := None;
      if taken.None? {
        pending := pending + [frame];
        return true, false;
      }
      if !reply {
        return false, false;
      }
      if !closed && connection.None? {
        connection := taken;
      }
      return true, true;
    }

    /** The flush loop. `replies[i]` is the result of replying with the i-th drained frame; `arrivals[i]` is what
        the sender queues before the loop takes the lock for it; `slot` is what the sender leaves in the slot. */
    method FlushPending(replies: seq<bool>, arrivals: seq<seq<Frame>>, slot: Option<nat>) returns (sent: seq<Frame>)
      requires AllEncode(pending) && |replies| == |pending| && |arrivals| == |pending|
      modifies this
      ensures if old(closed) || old(connection) == None || old(pending) == [] then sent == [] && State() == old(State())
        else
          var drained := old(pending);
          var k := FirstFailure(replies, |drained|);
          && sent == drained[..k]
          && pending == Reverse(drained[k..]) + Concat(arrivals)
          && closed == old(closed)
          && connection == if k == |drained| && slot.None? then old(connection) else slot
    {
      hide Reverse, Concat;
      sent := [];
      if closed || connection.None? || pending == [] {
        return;
      }
      var drained, taken := pending, connection;
      pending, connection := [], None;
      var alive, i := true, 0;
      NothingYet(drained, arrivals);
      while i < |drained|
        modifies this
        invariant 0 <= i <= |drained| && !closed
        invariant var k := FirstFailure(replies, i);
          && (alive <==> k == i)
          && sent == drained[..k]
          && pending == Reverse(drained[k..i]) + Concat(arrivals[..i])
      {
        OneMore(drained, FirstFailure(replies, i), i, arrivals);
        pending := pending + arrivals[i];
        var frame := drained[i];
        if !alive {
          pending := [frame] + pending;
        } else if frame.encodes {
          if replies[i] {
            sent := sent + [frame];
          } else {
            alive := false;
            pending := [frame] + pending;
          }
        }
        i := i + 1;
      }
      assert drained[FirstFailure(replies, i)..i] == drained[FirstFailure(replies, i)..] && arrivals[..i] == arrivals;
      connection := slot;
      if alive {
        if connection.None? {
          connection := taken;
        }
      }
    }
  }

  /** A flush keeps the frames in the order they were queued in exactly when what it fails to deliver reads the same
      backwards. */
  lemma OrderKept(drained: seq<Frame>, k: nat, queued: seq<Frame>)
    requires k <= |drained|
    ensures drained[..k] + (Reverse(drained[k..]) + queued) == drained + queued <==>
            forall i | k <= i < |drained| :: drained[i] == drained[k + |drained| - 1 - i]
  {
    var left, back := drained[k..], Reverse(drained[k..]);
    var one, two := drained[..k] + (back + queued), drained + queued;
    if one == two {
      forall i | k <= i < |drained|
        ensures drained[i] == drained[k + |drained| - 1 - i]
      {
        assert one[i] == back[i - k] && two[i] == drained[i];
      }
    }
    if forall i | k <= i < |drained| :: drained[i] == drained[k + |drained| - 1 - i] {
      assert back == left;
      assert drained == drained[..k] + left;
      assert drained[..k] + (left + queued) == (drained[..k] + left) + queued;
    }
  }

  /** With distinct frames: exactly when at most one frame is left over. */
  lemma OrderKeptDistinct(drained: seq<Frame>, k: nat, queued: seq<Frame>)
    requires k <= |drained|
    requires forall i, j | 0 <= i < j < |drained| :: drained[i] != drained[j]
    ensures drained[..k] + (Reverse(drained[k..]) + queued) == drained + queued <==> |drained| <= k + 1
  {
    OrderKept(drained, k, queued);
    if |drained| > k + 1 {
      assert drained[k] != drained[|drained| - 1];
    }
  }
}

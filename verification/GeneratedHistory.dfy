/** Histories whose ids the generator makes: the bridge from the generator's stamps to what the bus promises about
    subscriptions and rebuilt traces. The generator is one for the whole process and starts anew with each; the store
    outlives both. */
module GeneratedHistory {
  import opened TextOrder
  import opened AppEvents
  import opened EventStore
  import opened EventBus
  import opened RebuildTrace
  import opened EventHistory
  import UuidV7

  /** An append that leaves its id to the generator, with the clock reading and the random bits of that call, or any
      other operation; Reopen among them starts a new process. */
  datatype Call = Generate(e: AppEvent, now: int, tail: nat) | Other(op: Op)

  /** A call on the bus, after other users of the generator have drawn ids at the clock readings `elsewhere`. */
  datatype Request = Request(elsewhere: seq<int>, call: Call)

  ghost predicate Serial(requests: seq<Request>) {
    forall i | 0 <= i < |requests| && requests[i].call.Other? :: !requests[i].call.op.Append?
  }

  /** The generator's stamp after draws at the given readings. */
  function Drawn(stamp: int, clock: seq<int>): int {
    if clock == [] then stamp else UuidV7.Max(Drawn(stamp, clock[..|clock| - 1]) + 1, clock[|clock| - 1] * 0x1000)
  }

  /** The generator's stamp after a history: 0 at the start of every process. */
  function Stamp(requests: seq<Request>): int {
    if requests == [] then 0 else
    var last := requests[|requests| - 1];
    var drawn := Drawn(Stamp(requests[..|requests| - 1]), last.elsewhere);
    match last.call
    case Generate(_, now, _) => UuidV7.Max(drawn + 1, now * 0x1000)
    case Other(op) => if op.Reopen? then 0 else drawn
  }

  /** The largest stamp an appended id carries; 0 when there is none. */
  function Newest(requests: seq<Request>): int {
    if requests == [] then 0 else
    var before := Newest(requests[..|requests| - 1]);
    if requests[|requests| - 1].call.Generate? then UuidV7.Max(before, Stamp(requests)) else before
  }

  function Named(requests: seq<Request>, spaceId: string): (ops: seq<Op>)
    ensures |ops| == |requests|
  {
    if requests == [] then [] else
    var last := requests[|requests| - 1];
    Named(requests[..|requests| - 1], spaceId) + [
      match last.call
      case Generate(e, now, tail) => Append(Filled(e, UuidV7.IdAt(Stamp(requests), tail), now, spaceId))
      case Other(op) => op]
  }

  // ---------------------------------------------------------------- across processes

  /** Every process stamps its ids above those of the processes before it. */
  ghost predicate Resumes(requests: seq<Request>) {
    requests == [] || (
      && Resumes(requests[..|requests| - 1])
      && (requests[|requests| - 1].call.Generate? ==> Newest(requests[..|requests| - 1]) < Stamp(requests)))
  }

  ghost predicate OneProcess(requests: seq<Request>) {
    forall i | 0 <= i < |requests| :: requests[i].call != Other(Reopen)
  }

  lemma {:induction false} DrawsGrow(stamp: int, clock: seq<int>)
    ensures Drawn(stamp, clock) >= stamp + |clock|
  {
    if clock != [] {
      DrawsGrow(stamp, clock[..|clock| - 1]);
    }
  }

  /** Within one process that is so whatever the clock does, and whoever else draws ids. */
  lemma {:induction false} OneProcessResumes(requests: seq<Request>)
    requires OneProcess(requests)
    ensures Resumes(requests) && 0 <= Newest(requests) <= Stamp(requests)
  {
    if requests != [] {
      var before, last := requests[..|requests| - 1], requests[|requests| - 1];
      OneProcessResumes(before);
      DrawsGrow(Stamp(before), last.elsewhere);
      assert last.call != Other(Reopen);
    }
  }

  /** In a new process it is so for its first id exactly when the clock has passed the last stamped millisecond: an id
      made at a later reading exceeds the stored ones whatever the random bits are, one made at an earlier or the same
      reading does not for some. */
  lemma FirstIdResumes(newest: int, tail: nat, now: int)
    requires 0 < newest < 0x1000_0000_0000_0000 && now < 0x1_0000_0000_0000
    ensures (forall r: nat :: Less(UuidV7.IdAt(newest, tail), UuidV7.IdAt(UuidV7.Max(1, now * 0x1000), r))) <==>
            newest / 0x1000 < now
  {
    hide UuidV7.IdAt, Less;
    var first := UuidV7.Max(1, now * 0x1000);
    if newest / 0x1000 < now {
      forall r: nat
        ensures Less(UuidV7.IdAt(newest, tail), UuidV7.IdAt(first, r))
      {
        UuidV7.IdOrder(newest, tail, first, r);
      }
    } else {
      UuidV7.IdOrder(newest, tail, first, 0);
      assert !Less(UuidV7.IdAt(newest, tail), UuidV7.IdAt(first, 0));
    }
  }

  /** Put as a history: a process that begins with an append resumes exactly when its clock has passed the last
      millisecond any stored id was stamped with. */
  lemma ReopenResumes(requests: seq<Request>, e: AppEvent, now: int, tail: nat)
    requires Resumes(requests) && Newest(requests) > 0
    ensures Resumes(requests + [Request([], Other(Reopen)), Request([], Generate(e, now, tail))]) <==>
            Newest(requests) / 0x1000 < now
  {
    var reopened := requests + [Request([], Other(Reopen))];
    var all := requests + [Request([], Other(Reopen)), Request([], Generate(e, now, tail))];
    assert reopened[..|reopened| - 1] == requests && all[..|all| - 1] == reopened;
    assert Stamp(reopened) == 0 && Stamp(all) == UuidV7.Max(1, now * 0x1000);
  }

  // ---------------------------------------------------------------- order of the ids

  ghost predicate Made(id: string, limit: int) {
    exists s: int, r: nat | 0 < s <= limit :: id == UuidV7.IdAt(s, r)
  }

  lemma MadeLater(id: string, limit: int, next: int, tail: nat)
    requires Made(id, limit) && limit < next < 0x1000_0000_0000_0000
    ensures Less(id, UuidV7.IdAt(next, tail))
  {
    hide UuidV7.IdAt;
    var s: int, r: nat :| 0 < s <= limit && id == UuidV7.IdAt(s, r);
    UuidV7.IdOrder(s, r, next, tail);
  }

  lemma MadeWithin(id: string, limit: int, more: int)
    requires Made(id, limit) && limit <= more
    ensures Made(id, more)
  {
    hide UuidV7.IdAt;
    var s: int, r: nat :| 0 < s <= limit && id == UuidV7.IdAt(s, r);
    assert 0 < s <= more;
  }

  /** However the clock jumps, the ids of a history ascend in call order while their stamps fit 60 bits. */
  lemma {:induction false} NamedAscends(requests: seq<Request>, spaceId: string)
    requires Serial(requests) && Resumes(requests) && Newest(requests) < 0x1000_0000_0000_0000
    ensures Newest(requests) >= 0
    ensures var ops := Named(requests, spaceId);
      SerialAppends([], ops) && forall i | 0 <= i < |ops| && ops[i].Append? :: Made(ops[i].e.id, Newest(requests))
  {
    hide UuidV7.IdAt, Less, Stamp, Made;
    if requests != [] {
      var before, last := requests[..|requests| - 1], requests[|requests| - 1];
      NamedAscends(before, spaceId);
      var ops := Named(before, spaceId);
      if last.call.Generate? {
        var id := UuidV7.IdAt(Stamp(requests), last.call.tail);
        NewlyMade(Stamp(requests), last.call.tail);
        forall i | 0 <= i < |ops| && ops[i].Append?
          ensures Less(ops[i].e.id, id) && Made(ops[i].e.id, Newest(requests))
        {
          MadeLater(ops[i].e.id, Newest(before), Stamp(requests), last.call.tail);
          MadeWithin(ops[i].e.id, Newest(before), Newest(requests));
        }
      }
    }
  }

  lemma NewlyMade(stamp: int, tail: nat)
    requires stamp > 0
    ensures Made(UuidV7.IdAt(stamp, tail), stamp)
  {
    hide UuidV7.IdAt;
  }

  // ---------------------------------------------------------------- how far the stamps can run

  /** The ids drawn by a history, appended or not. */
  function Draws(requests: seq<Request>): nat {
    if requests == [] then 0 else
    var last := requests[|requests| - 1];
    Draws(requests[..|requests| - 1]) + |last.elsewhere| + if last.call.Generate? then 1 else 0
  }

  ghost predicate ReadsUpTo(requests: seq<Request>, bound: nat) {
    forall i | 0 <= i < |requests| ::
      && (forall j | 0 <= j < |requests[i].elsewhere| :: requests[i].elsewhere[j] <= bound)
      && (requests[i].call.Generate? ==> requests[i].call.now <= bound)
  }

  lemma {:induction false} DrawnBound(stamp: int, clock: seq<int>, bound: nat, calls: nat)
    requires stamp <= bound * 0x1000 + calls && forall j | 0 <= j < |clock| :: clock[j] <= bound
    ensures Drawn(stamp, clock) <= bound * 0x1000 + calls + |clock|
  {
    if clock != [] {
      DrawnBound(stamp, clock[..|clock| - 1], bound, calls);
    }
  }

  /** The stamps outrun the latest clock reading by at most one tick a draw. */
  lemma {:induction false} StampBound(requests: seq<Request>, bound: nat)
    requires ReadsUpTo(requests, bound)
    ensures Stamp(requests) <= bound * 0x1000 + Draws(requests)
    ensures Newest(requests) <= bound * 0x1000 + Draws(requests)
  {
    if requests != [] {
      var before, last := requests[..|requests| - 1], requests[|requests| - 1];
      assert ReadsUpTo(before, bound);
      assert last == requests[|requests| - 1] && forall j | 0 <= j < |last.elsewhere| :: last.elsewhere[j] <= bound;
      StampBound(before, bound);
      DrawnBound(Stamp(before), last.elsewhere, bound, Draws(before));
    }
  }

  /** The clock stays early enough for a history of this length. */
  ghost predicate ClockFits(requests: seq<Request>, bound: nat) {
    ReadsUpTo(requests, bound) && bound * 0x1000 + Draws(requests) < 0x1000_0000_0000_0000
  }

  // ---------------------------------------------------------------- subscriptions

  lemma {:induction false} NamedIsNamed(requests: seq<Request>, spaceId: string)
    requires Serial(requests) && spaceId != ""
    ensures var ops := Named(requests, spaceId);
      NamedAppends(ops) && forall i | 0 <= i < |ops| && ops[i].Append? :: ops[i].e.spaceId != ""
  {
    hide UuidV7.IdAt, Stamp;
    if requests != [] {
      NamedIsNamed(requests[..|requests| - 1], spaceId);
      if requests[|requests| - 1].call.Generate? {
        UuidV7.IdAtLayout(Stamp(requests), requests[|requests| - 1].call.tail);
      }
    }
  }

  /** A subscriber of a bus with generated ids receives, in strictly ascending id order, the newest stored matches
      and then every later match until its process ends, whatever the clock does. */
  lemma GeneratedSubscription(requests: seq<Request>, later: seq<Request>, spaceId: string, scope: Scope, bound: nat)
    requires Serial(requests + later) && Resumes(requests + later) && ClockFits(requests + later, bound) && spaceId != ""
    requires var token := Run(FRESH_BUS, Named(requests, spaceId)).nextToken;
      forall i | 0 <= i < |later| :: later[i].call != Other(Unsubscribe(token)) && later[i].call != Other(Reopen)
    ensures var s := Run(FRESH_BUS, Named(requests, spaceId));
      var ops := Named(requests + later, spaceId)[|requests|..];
      && ReceivedBy(Run(SubscribeStep(s, scope), ops).received, s.nextToken) == Replay(s.events, scope) + Live(ops, scope)
      && AscendingIds(Replay(s.events, scope) + Live(ops, scope))
  {
    hide UuidV7.IdAt, Less, Filled, Run, SubscribeStep, Replay, Live, Resumes, Stamp, Newest, Draws;
    var before, all := Named(requests, spaceId), Named(requests + later, spaceId);
    var s, ops := Run(FRESH_BUS, before), all[|requests|..];
    NamedIsNamed(requests + later, spaceId);
    NamedPrefix(requests, later, spaceId);
    StampBound(requests + later, bound);
    NamedAscends(requests + later, spaceId);
    assert all == before + ops;
    assert NamedAppends(ops) by {
      assert forall i | 0 <= i < |ops| :: ops[i] == all[|requests| + i];
    }
    assert NamedAppends(before);
    FreshIsValid();
    RunKeepsValid(FRESH_BUS, before);
    NotAmong(requests, later, spaceId, Unsubscribe(s.nextToken));
    NotAmong(requests, later, spaceId, Reopen);
    ReplayThenLive(s, scope, ops);
    LaterThanStored(before, ops);
    ReceivedAscends(s, scope, ops);
  }

  lemma FreshIsValid()
    ensures Valid(FRESH_BUS)
  {
  }

  lemma {:induction false} NamedPrefix(requests: seq<Request>, later: seq<Request>, spaceId: string)
    ensures Named(requests + later, spaceId)[..|requests|] == Named(requests, spaceId)
    decreases later
  {
    hide UuidV7.IdAt, Filled, Stamp;
    if later == [] {
      assert requests + later == requests;
    } else {
      assert (requests + later)[..|requests + later| - 1] == requests + later[..|later| - 1];
      NamedPrefix(requests, later[..|later| - 1], spaceId);
    }
  }

  lemma {:induction false} NotAmong(requests: seq<Request>, later: seq<Request>, spaceId: string, op: Op)
    requires !op.Append? && forall i | 0 <= i < |later| :: later[i].call != Other(op)
    ensures op !in Named(requests + later, spaceId)[|requests|..]
    decreases later
  {
    hide UuidV7.IdAt, Filled, Stamp;
    if later == [] {
      assert requests + later == requests;
    } else {
      assert later[|later| - 1].call != Other(op);
      assert (requests + later)[..|requests + later| - 1] == requests + later[..|later| - 1];
      NotAmong(requests, later[..|later| - 1], spaceId, op);
      NamedPrefix(requests, later[..|later| - 1], spaceId);
    }
  }

  /** Rows come from appends, so appends that ascend overall exceed the stored rows. */
  lemma {:induction false} StoredFrom(ops: seq<Op>)
    ensures forall r | r in Run(FRESH_BUS, ops).events :: exists i | 0 <= i < |ops| && ops[i].Append? :: ops[i].e.id == r.id
  {
    hide Place, Triage, Dispatch, WriteLine, Expire, Keep;
    if ops != [] {
      var before, op := ops[..|ops| - 1], ops[|ops| - 1];
      StoredFrom(before);
      var s, s' := Run(FRESH_BUS, before), Run(FRESH_BUS, ops);
      forall r | r in s'.events
        ensures exists i | 0 <= i < |ops| && ops[i].Append? :: ops[i].e.id == r.id
      {
        if r in s.events {
          var i :| 0 <= i < |before| && before[i].Append? && before[i].e.id == r.id;
          assert ops[i] == before[i];
        } else {
          NewRow(s, op, r);
          assert ops[|ops| - 1].Append?;
        }
      }
    }
  }

  lemma NewRow(s: BusState, op: Op, r: Row)
    requires r in Step(s, op).events && r !in s.events
    ensures op.Append? && op.e.id == r.id
  {
    match op
    case Append(e) =>
      PlaceContents(s.events, RowOf(e));
    case Collect(now, olderThan) =>
      KeepContents(s.events, Expire(s.inbox, now), olderThan);
    case _ =>
  }

  lemma LaterThanStored(before: seq<Op>, ops: seq<Op>)
    requires SerialAppends([], before + ops)
    ensures SerialAppends(Run(FRESH_BUS, before).events, ops)
  {
    hide Run, Less;
    var all := before + ops;
    StoredFrom(before);
    assert forall i | 0 <= i < |ops| :: ops[i] == all[|before| + i];
    assert forall i | 0 <= i < |before| :: before[i] == all[i];
    var t := Run(FRESH_BUS, before).events;
    forall i, r | 0 <= i < |ops| && ops[i].Append? && r in t
      ensures Less(r.id, ops[i].e.id)
    {
      var k :| 0 <= k < |before| && before[k].Append? && before[k].e.id == r.id;
      assert Less(all[k].e.id, all[|before| + i].e.id);
    }
  }

  // ---------------------------------------------------------------- traces

  /** With generated ids and no collection, rebuilding a run's trace gives the lines written live with session ids
      erased, in the same order, whatever the clock does and over any number of processes. */
  lemma GeneratedRebuild(requests: seq<Request>, spaceId: string, flowId: string, runId: string, bound: nat)
    requires Serial(requests) && Resumes(requests) && ClockFits(requests, bound) && spaceId != ""
    requires forall i | 0 <= i < |requests| && requests[i].call.Other? :: !requests[i].call.op.Collect?
    requires flowId != "" && runId != ""
    ensures var s := Run(FRESH_BUS, Named(requests, spaceId));
      RebuiltLines(s.events, flowId, runId) == EraseAll(LinesOf(s.trace, flowId, runId))
  {
    hide UuidV7.IdAt, Less, Run, EraseAll, RebuiltLines, Resumes, Stamp, Newest, Draws;
    var ops := Named(requests, spaceId);
    NamedIsNamed(requests, spaceId);
    NeverCollects(requests, spaceId);
    StampBound(requests, bound);
    NamedAscends(requests, spaceId);
    forall i, j | 0 <= i < j < |ops| && ops[i].Append? && ops[j].Append?
      ensures ops[i].e.id != ops[j].e.id
    {
      Irreflexive(ops[i].e.id);
    }
    LiveAscends([], ops, Scope(flowId, runId));
    RebuildAgrees(ops, flowId, runId);
  }

  lemma {:induction false} NeverCollects(requests: seq<Request>, spaceId: string)
    requires forall i | 0 <= i < |requests| && requests[i].call.Other? :: !requests[i].call.op.Collect?
    ensures forall i | 0 <= i < |requests| :: !Named(requests, spaceId)[i].Collect?
  {
    hide UuidV7.IdAt, Filled, Stamp;
    if requests != [] {
      NeverCollects(requests[..|requests| - 1], spaceId);
    }
  }
}

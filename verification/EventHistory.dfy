/** Whole histories of the bus: what every run of its critical sections keeps, and what a subscriber and a
    run's trace file have seen at the end of it. */
module EventHistory {
  import opened Wrappers
  import opened TextOrder
  import opened AppEvents
  import opened EventStore
  import opened EventBus
  import opened RebuildTrace

  /** The critical sections of the bus. Reopen is the end of the process and a new bus on the same store and files. */
  datatype Op =
    | Append(e: AppEvent)
    | Subscribe(scope: Scope)
    | Unsubscribe(token: nat)
    | SetInbox(id: string, state: InboxState, until: Option<int>)
    | Collect(now: int, olderThan: int)
    | Reopen

  function Step(s: BusState, op: Op): BusState {
    match op
    case Append(e) => AppendStep(s, e)
    case Subscribe(scope) => SubscribeStep(s, scope)
    case Unsubscribe(token) => s.(subs := Without(s.subs, token))
    case SetInbox(id, state, until) => SetInboxStep(s, id, state, until)
    case Collect(now, olderThan) => CollectStep(s, now, olderThan)
    case Reopen => s.(subs := [], received := map[], nextToken := 1)
  }

  function Run(s: BusState, ops: seq<Op>): BusState {
    if ops == [] then s else Step(Run(s, ops[..|ops| - 1]), ops[|ops| - 1])
  }

  const FRESH_BUS: BusState := BusState([], map[], [], map[], map[], 1)

  /** Ids are never empty: the caller's, or a generated one. */
  ghost predicate NamedAppends(ops: seq<Op>) {
    forall i | 0 <= i < |ops| && ops[i].Append? :: ops[i].e.id != ""
  }

  // ---------------------------------------------------------------- invariants

  /** Rows stay in key order, the inbox points at stored events, and tokens are handed out once. */
  ghost predicate Valid(s: BusState) {
    && Keyed(s.events)
    && s.inbox.Keys <= Ids(s.events)
    && (forall i | 0 <= i < |s.subs| :: s.subs[i].token < s.nextToken)
    && (forall i, j | 0 <= i < j < |s.subs| :: s.subs[i].token != s.subs[j].token)
  }

  lemma {:induction false} KeepContents(t: Table, inbox: map<string, InboxRow>, olderThan: int)
    ensures forall r :: r in Keep(t, inbox, olderThan) <==> r in t && !Collectable(r, inbox, olderThan)
  {
    if t != [] {
      KeepContents(t[1..], inbox, olderThan);
      assert t == [t[0]] + t[1..];
    }
  }

  lemma {:induction false} KeepKeyed(t: Table, inbox: map<string, InboxRow>, olderThan: int)
    requires Keyed(t)
    ensures Keyed(Keep(t, inbox, olderThan)) && Ids(Keep(t, inbox, olderThan)) <= Ids(t)
  {
    hide Collectable, Less, Ids;
    var kept := Keep(t, inbox, olderThan);
    if t != [] {
      KeepKeyed(t[1..], inbox, olderThan);
      var rest := Keep(t[1..], inbox, olderThan);
      KeepContents(t[1..], inbox, olderThan);
      forall i | 0 <= i < |rest|
        ensures Less(t[0].id, rest[i].id)
      {
        assert rest[i] in t[1..];
        var j :| 0 <= j < |t[1..]| && t[1..][j] == rest[i];
        assert t[j + 1] == rest[i];
      }
    }
    KeepContents(t, inbox, olderThan);
    forall id | id in Ids(kept)
      ensures id in Ids(t)
    {
      IdsContents(kept, id);
      IdsContents(t, id);
    }
  }

  lemma {:induction false} WithoutKeepsTokens(subs: seq<Subscription>, token: nat)
    ensures forall x | x in Without(subs, token) :: x in subs
    ensures (forall i, j | 0 <= i < j < |subs| :: subs[i].token != subs[j].token) ==>
            forall i, j | 0 <= i < j < |Without(subs, token)| :: Without(subs, token)[i].token != Without(subs, token)[j].token
  {
    if subs != [] && subs[0].token != token {
      WithoutKeepsTokens(subs[1..], token);
      if forall i, j | 0 <= i < j < |subs| :: subs[i].token != subs[j].token {
        assert forall j | 0 <= j < |subs[1..]| :: subs[1..][j] == subs[j + 1];
        var rest := Without(subs[1..], token);
        forall j | 0 <= j < |rest|
          ensures rest[j].token != subs[0].token
        {
          assert rest[j] in subs[1..];
        }
      }
    }
  }

  lemma StepKeepsValid(s: BusState, op: Op)
    requires Valid(s) && (op.Append? ==> op.e.id != "")
    ensures Valid(Step(s, op))
  {
    match op
    case Append(e) =>
      InsertKeepsKeys(s.events, RowOf(e));
    case Subscribe(scope) =>
    case Unsubscribe(token) =>
      WithoutKeepsTokens(s.subs, token);
      var rest := Without(s.subs, token);
      forall i | 0 <= i < |rest|
        ensures rest[i].token < s.nextToken
      {
        assert rest[i] in s.subs;
      }
    case SetInbox(id, state, until) =>
    case Reopen =>
    case Collect(now, olderThan) =>
      KeepKeyed(s.events, Expire(s.inbox, now), olderThan);
  }

  lemma {:induction false} RunKeepsValid(s: BusState, ops: seq<Op>)
    requires Valid(s) && NamedAppends(ops)
    ensures Valid(Run(s, ops))
  {
    if ops != [] {
      RunKeepsValid(s, ops[..|ops| - 1]);
      StepKeepsValid(Run(s, ops[..|ops| - 1]), ops[|ops| - 1]);
    }
  }

  // ---------------------------------------------------------------- the inbox

  /** In a history of stored appends without collection, the inbox lists exactly the events that need action. */
  lemma {:induction false} InboxIsExact(ops: seq<Op>, id: string)
    requires StoredHistory(ops)
    ensures id in Run(FRESH_BUS, ops).inbox <==>
            exists i | 0 <= i < |ops| :: ops[i].Append? && ops[i].e.id == id && TriageNeedsAction(ops[i].e)
  {
    hide TriageNeedsAction, StoredHistory, Step;
    if ops != [] {
      StoredPrefix(ops);
      SpacesGiven(ops);
      var before, op := ops[..|ops| - 1], ops[|ops| - 1];
      InboxIsExact(before, id);
      InboxAfter(Run(FRESH_BUS, before), op, id);
      var added := op.Append? && op.e.id == id && TriageNeedsAction(op.e);
      assert id in Run(FRESH_BUS, ops).inbox <==> id in Run(FRESH_BUS, before).inbox || added;
      if i :| 0 <= i < |before| && before[i].Append? && before[i].e.id == id && TriageNeedsAction(before[i].e) {
        assert ops[i] == before[i];
      }
      assert forall i | 0 <= i < |before| :: ops[i] == before[i];
    }
  }

  /** The payload gives a key this text. */
  ghost predicate Says(p: Json, key: string, text: string) {
    p.Object? && key in p.fields && p.fields[key] == Text(text)
  }

  /** Which events get an inbox row, and what the row says: reviews by a human who asks for changes, texts that mention
      the user, errors that are not a tool's, and pauses for human approval. A row that is there is left alone. */
  lemma AppendTriages(s: BusState, e: AppEvent)
    requires e.spaceId != "" || e.id in Ids(s.events)
    ensures var p, old', new' := e.payload, s.inbox, AppendStep(s, e).inbox;
      && (e.id in old' ==> new' == old')
      && (e.kind == ReviewEvent && e.id !in old' ==>
            new' == if Says(p, "verdict", "request_changes") && Says(p, "reviewer", "human")
                    then old'[e.id := InboxRow(Unread, None, e.flowId, "review_event")] else old')
      && (e.kind == TextKind && e.id !in old' ==>
            new' == if p.Object? && "mentions" in p.fields && p.fields["mentions"].Array?
                       && Text("me") in p.fields["mentions"].items
                    then old'[e.id := InboxRow(Unread, None, e.flowId, "text")] else old')
      && (e.kind == Error && e.id !in old' ==>
            new' == if Says(p, "scope", "tool") then old' else old'[e.id := InboxRow(Unread, None, e.flowId, "error")])
      && (e.kind == System && e.id !in old' ==>
            new' == if Says(p, "subkind", "run_paused") && Says(p, "cause", "human_approval")
                    then old'[e.id := InboxRow(Unread, None, e.flowId, "system")] else old')
      && (e.kind !in {ReviewEvent, TextKind, Error, System} ==> new' == old')
  {
    hide Dispatch, WriteLine;
    assert e.id in Ids(Insert(s.events, RowOf(e))) by {
      if e.spaceId != "" {
        InsertedId(s.events, e);
      }
    }
    hide Insert, Ids;
  }

  /** An event that is not stored gets no row. */
  lemma UnstoredIsNotTriaged(s: BusState, e: AppEvent)
    requires e.spaceId == "" && e.id !in Ids(s.events)
    ensures AppendStep(s, e).inbox == s.inbox && AppendStep(s, e).events == s.events
  {
  }

  lemma SpacesGiven(ops: seq<Op>)
    requires StoredHistory(ops)
    ensures forall i | 0 <= i < |ops| && ops[i].Append? :: ops[i].e.spaceId != ""
    ensures forall i | 0 <= i < |ops| :: !ops[i].Collect?
  {
  }

  lemma InboxAfter(s: BusState, op: Op, id: string)
    requires !op.Collect? && (op.Append? ==> op.e.spaceId != "")
    ensures id in Step(s, op).inbox <==>
            id in s.inbox || (op.Append? && op.e.id == id && TriageNeedsAction(op.e))
  {
    hide TriageNeedsAction, Dispatch, WriteLine;
    if op.Append? {
      AppendIsStep(s, op.e);
      InsertedId(s.events, op.e);
    }
  }

  lemma InsertedId(t: Table, e: AppEvent)
    requires e.spaceId != ""
    ensures e.id in Ids(Insert(t, RowOf(e)))
  {
    var row := RowOf(e);
    if row.id !in Ids(t) {
      PlaceContents(t, row);
      IdsContents(Place(t, row), row.id);
    }
  }

  // ---------------------------------------------------------------- collection

  /** A collection deletes exactly the old events whose inbox row is absent or, once expired snoozes have
      become unread, read; no unread or snoozed event is ever lost. */
  lemma CollectIsExact(s: BusState, now: int, olderThan: int, r: Row)
    requires Valid(s) && r in s.events
    ensures var s' := CollectStep(s, now, olderThan);
      && (r !in s'.events <==>
            r.tsMs < olderThan && (r.id in s.inbox ==> s.inbox[r.id].state == Read))
      && (r in s'.events && r.id in s.inbox ==> r.id in s'.inbox)
      && (r !in s'.events ==> r.id !in s'.inbox)
  {
    var inbox := Expire(s.inbox, now);
    var kept := Keep(s.events, inbox, olderThan);
    KeepContents(s.events, inbox, olderThan);
    IdsContents(s.events, r.id);
    IdsContents(kept, r.id);
    if r !in kept && r.id in Ids(kept) {
      var q :| q in kept && q.id == r.id;
      SameIdSameRow(s.events, q, r);
    }
  }

  /** What a collection makes of the inbox: a snooze that is over becomes unread, every other row stays as it was, and
      the rows of deleted events go with them. */
  lemma CollectedRows(s: BusState, now: int, olderThan: int, id: string)
    requires Valid(s)
    ensures var s' := CollectStep(s, now, olderThan);
      && s'.subs == s.subs && s'.received == s.received && s'.trace == s.trace && s'.nextToken == s.nextToken
      && (id in s'.inbox <==> id in s.inbox && id in Ids(s'.events))
      && (id in s'.inbox ==>
            s'.inbox[id] ==
              var r := s.inbox[id];
              if r.state == Snoozed && r.snoozeUntil.Some? && r.snoozeUntil.value <= now
              then InboxRow(Unread, None, r.flowId, r.kind) else r)
  {
    CollectedInbox(s, now, olderThan);
    hide Keep, Ids, Keyed;
  }

  lemma SameIdSameRow(t: Table, a: Row, b: Row)
    requires Keyed(t) && a in t && b in t && a.id == b.id
    ensures a == b
  {
    var i :| 0 <= i < |t| && t[i] == a;
    var j :| 0 <= j < |t| && t[j] == b;
    Irreflexive(a.id);
    assert i == j;
  }

  lemma {:induction false} KeepTwice(t: Table, inbox: map<string, InboxRow>, inbox': map<string, InboxRow>, a: int, b: int)
    requires forall r | r in t && !Collectable(r, inbox, a) :: r.id in inbox <==> r.id in inbox'
    requires forall id | id in inbox && id in inbox' :: inbox[id] == inbox'[id]
    ensures Keep(Keep(t, inbox, a), inbox', b) == Keep(t, inbox, if a < b then b else a)
  {
    if t != [] {
      KeepTwice(t[1..], inbox, inbox', a, b);
      if !Collectable(t[0], inbox, a) {
        var rest := Keep(t[1..], inbox, a);
        var kept := [t[0]] + rest;
        assert kept[0] == t[0] && kept[1..] == rest && Keep(t, inbox, a) == kept;
        assert t[0] in t;
        assert Collectable(t[0], inbox', b) <==> Collectable(t[0], inbox, if a < b then b else a);
      } else {
        assert Keep(t, inbox, a) == Keep(t[1..], inbox, a);
        assert Collectable(t[0], inbox, if a < b then b else a);
      }
    }
  }

  /** The inbox after a collection: the expired inbox, without the rows of deleted events. */
  lemma CollectedInbox(s: BusState, now: int, a: int)
    requires Valid(s)
    ensures var inbox, s1 := Expire(s.inbox, now), CollectStep(s, now, a);
      && (forall id :: id in s1.inbox <==> id in inbox && id in Ids(s1.events))
      && (forall id | id in s1.inbox :: s1.inbox[id] == inbox[id])
      && Expire(s1.inbox, now) == s1.inbox
  {
    hide Keyed, Ids, Keep;
    KeepKeyed(s.events, Expire(s.inbox, now), a);
  }

  lemma KeptRowsKeepTheirInbox(s: BusState, now: int, a: int)
    requires Valid(s)
    ensures var inbox, s1 := Expire(s.inbox, now), CollectStep(s, now, a);
      forall r | r in s.events && !Collectable(r, inbox, a) :: r.id in inbox <==> r.id in s1.inbox
  {
    hide Keyed, Collectable, Keep;
    var inbox, s1 := Expire(s.inbox, now), CollectStep(s, now, a);
    KeepContents(s.events, inbox, a);
    CollectedInbox(s, now, a);
    forall r | r in s.events && !Collectable(r, inbox, a)
      ensures r.id in inbox <==> r.id in s1.inbox
    {
      IdsContents(s1.events, r.id);
    }
  }

  lemma CollectTwiceRows(s: BusState, now: int, a: int, b: int)
    requires Valid(s)
    ensures CollectStep(CollectStep(s, now, a), now, b).events ==
            CollectStep(s, now, if a < b then b else a).events
  {
    hide Keep, Collectable, Valid, Expire, Ids;
    var inbox, s1 := Expire(s.inbox, now), CollectStep(s, now, a);
    CollectedInbox(s, now, a);
    KeptRowsKeepTheirInbox(s, now, a);
    KeepTwice(s.events, inbox, s1.inbox, a, b);
  }

  lemma CollectTwiceInbox(s: BusState, now: int, a: int, b: int)
    requires Valid(s)
    ensures CollectStep(CollectStep(s, now, a), now, b).inbox ==
            CollectStep(s, now, if a < b then b else a).inbox
  {
    hide Keep, Collectable, Valid, Expire, Ids, CollectStep;
    var later := if a < b then b else a;
    var s1 := CollectStep(s, now, a);
    var one, two := CollectStep(s, now, later), CollectStep(s1, now, b);
    CollectTwiceRows(s, now, a, b);
    CollectedInbox(s, now, a);
    CollectedInbox(s, now, later);
    CollectKeepsValid(s, now, a);
    CollectedInbox(s1, now, b);
    CollectShrinks(s1, now, b);
    forall id: string
      ensures (id in one.inbox <==> id in two.inbox) && (id in one.inbox ==> one.inbox[id] == two.inbox[id])
    {
    }
    assert one.inbox == two.inbox;
  }

  lemma CollectKeepsValid(s: BusState, now: int, a: int)
    requires Valid(s)
    ensures Valid(CollectStep(s, now, a))
  {
    StepKeepsValid(s, Collect(now, a));
    hide Valid, CollectStep;
  }

  lemma CollectShrinks(s: BusState, now: int, a: int)
    requires Valid(s)
    ensures Ids(CollectStep(s, now, a).events) <= Ids(s.events)
  {
    hide Keep, Ids, Expire;
    KeepKeyed(s.events, Expire(s.inbox, now), a);
  }

  /** At a fixed clock, collecting twice is collecting once with the later threshold, counts included. */
  lemma CollectTwice(s: BusState, now: int, a: int, b: int)
    requires Valid(s)
    ensures var later := if a < b then b else a;
      && CollectStep(CollectStep(s, now, a), now, b) == CollectStep(s, now, later)
      && Collected(s, now, a) + Collected(CollectStep(s, now, a), now, b) == Collected(s, now, later)
  {
    CollectTwiceRows(s, now, a, b);
    CollectTwiceInbox(s, now, a, b);
    hide Keep, Valid, Expire, Ids;
  }

  // ---------------------------------------------------------------- replay, then live

  /** The appended events in scope, in append order. */
  function Live(ops: seq<Op>, scope: Scope): seq<AppEvent> {
    if ops == [] then [] else
    var op := ops[|ops| - 1];
    Live(ops[..|ops| - 1], scope) + (if op.Append? && ScopeMatches(scope, op.e) then [op.e] else [])
  }

  predicate Holds(subs: seq<Subscription>, token: nat, scope: Scope) {
    exists i | 0 <= i < |subs| :: subs[i] == Subscription(token, scope)
  }

  /** One append calls each callback whose scope matches exactly once, and no other. */
  lemma {:induction false} DispatchOnce(subs: seq<Subscription>, received: map<nat, seq<AppEvent>>, e: AppEvent,
                                        token: nat, scope: Scope)
    requires forall i, j | 0 <= i < j < |subs| :: subs[i].token != subs[j].token
    ensures Holds(subs, token, scope) ==>
      ReceivedBy(Dispatch(subs, received, e), token) ==
      ReceivedBy(received, token) + if ScopeMatches(scope, e) then [e] else []
    ensures (forall i | 0 <= i < |subs| :: subs[i].token != token) ==>
      ReceivedBy(Dispatch(subs, received, e), token) == ReceivedBy(received, token)
    decreases subs
  {
    if subs != [] {
      var s := subs[0];
      var next := if ScopeMatches(s.scope, e) then received[s.token := ReceivedBy(received, s.token) + [e]] else received;
      assert forall j | 0 <= j < |subs[1..]| :: subs[1..][j] == subs[j + 1];
      DispatchOnce(subs[1..], next, e, token, scope);
      if Holds(subs, token, scope) && s.token != token {
        var i :| 0 <= i < |subs| && subs[i] == Subscription(token, scope);
        assert subs[1..][i - 1] == Subscription(token, scope);
      }
    }
  }

  lemma {:induction false} WithoutKeepsOthers(subs: seq<Subscription>, token: nat, other: nat, scope: Scope)
    requires token != other && Holds(subs, token, scope)
    ensures Holds(Without(subs, other), token, scope)
  {
    var i :| 0 <= i < |subs| && subs[i] == Subscription(token, scope);
    if subs[0].token == other {
      assert subs[1..][i - 1] == Subscription(token, scope);
    } else if i == 0 {
      assert Without(subs, other)[0] == subs[0];
    } else {
      assert subs[1..][i - 1] == Subscription(token, scope);
      WithoutKeepsOthers(subs[1..], token, other, scope);
      var j :| 0 <= j < |Without(subs[1..], other)| && Without(subs[1..], other)[j] == Subscription(token, scope);
      assert Without(subs, other)[j + 1] == Subscription(token, scope);
    }
  }

  /** One operation, other than its own cancellation or the end of the process, brings a subscriber the appended event
      if it matches. */
  lemma StepReceives(s: BusState, op: Op, token: nat, scope: Scope)
    requires Valid(s) && Holds(s.subs, token, scope) && token < s.nextToken && op != Unsubscribe(token) && !op.Reopen?
    ensures var s' := Step(s, op);
      && Holds(s'.subs, token, scope)
      && s'.nextToken > token
      && ReceivedBy(s'.received, token) ==
         ReceivedBy(s.received, token) + if op.Append? && ScopeMatches(scope, op.e) then [op.e] else []
  {
    hide Keyed, Ids, Insert, Triage, WriteLine, Replay, Keep, Expire;
    match op
    case Append(e) =>
      DispatchOnce(s.subs, s.received, e, token, scope);
    case Subscribe(other) =>
      hide Dispatch;
      var i :| 0 <= i < |s.subs| && s.subs[i] == Subscription(token, scope);
      assert Step(s, op).subs[i] == Subscription(token, scope);
    case Unsubscribe(other) =>
      hide Dispatch;
      WithoutKeepsOthers(s.subs, token, other, scope);
    case SetInbox(_, _, _) =>
      hide Dispatch;
    case Collect(_, _) =>
      hide Dispatch;
  }

  lemma NewSubscriber(s: BusState, scope: Scope)
    ensures var start := SubscribeStep(s, scope);
      && Holds(start.subs, s.nextToken, scope)
      && start.nextToken > s.nextToken
      && ReceivedBy(start.received, s.nextToken) == Replay(s.events, scope)
  {
    assert SubscribeStep(s, scope).subs[|s.subs|] == Subscription(s.nextToken, scope);
  }

  /** Whatever happens after a subscription, until it is cancelled or the process ends its callback has received the newest 11000
      stored matches in id order, then every matching append once, in append order. */
  lemma {:induction false} ReplayThenLive(s: BusState, scope: Scope, ops: seq<Op>)
    requires Valid(s) && NamedAppends(ops)
    requires Unsubscribe(s.nextToken) !in ops && Reopen !in ops
    ensures var s' := Run(SubscribeStep(s, scope), ops);
      && Holds(s'.subs, s.nextToken, scope)
      && s'.nextToken > s.nextToken
      && ReceivedBy(s'.received, s.nextToken) == Replay(s.events, scope) + Live(ops, scope)
  {
    hide Step, Valid, Holds, ScopeMatches, SubscribeStep, Replay;
    var start := SubscribeStep(s, scope);
    if ops == [] {
      NewSubscriber(s, scope);
    } else {
      var before, op := ops[..|ops| - 1], ops[|ops| - 1];
      ReplayThenLive(s, scope, before);
      assert Step(s, Subscribe(scope)) == start by {
        SubscribeIsStep(s, scope);
      }
      StepKeepsValid(s, Subscribe(scope));
      RunKeepsValid(start, before);
      assert op in ops;
      StepReceives(Run(start, before), op, s.nextToken, scope);
    }
  }

  lemma SubscribeIsStep(s: BusState, scope: Scope)
    ensures Step(s, Subscribe(scope)) == SubscribeStep(s, scope)
  {
  }

  /** An append adds one line, to the file of its own flow and run and to no other; an event without a flow or a run
      has no file. */
  lemma WrittenLines(s: BusState, e: AppEvent, flowId: string, runId: string)
    ensures LinesOf(AppendStep(s, e).trace, flowId, runId) ==
            LinesOf(s.trace, flowId, runId) +
            if e.flowId == flowId != "" && e.runId == runId != "" then [ToJson(e)] else []
  {
    hide ToJson, Insert, Triage, Dispatch;
  }

  ghost predicate Silent(s: BusState, token: nat) {
    token < s.nextToken && forall i | 0 <= i < |s.subs| :: s.subs[i].token != token
  }

  lemma {:induction false} WithoutDrops(subs: seq<Subscription>, token: nat)
    requires forall i, j | 0 <= i < j < |subs| :: subs[i].token != subs[j].token
    ensures forall x | x in Without(subs, token) :: x.token != token
  {
    if subs != [] {
      assert forall j | 0 <= j < |subs[1..]| :: subs[1..][j] == subs[j + 1];
      WithoutDrops(subs[1..], token);
    }
  }

  lemma StaysSilent(s: BusState, op: Op, token: nat)
    requires Valid(s) && Silent(s, token) && !op.Reopen?
    ensures Silent(Step(s, op), token)
    ensures ReceivedBy(Step(s, op).received, token) == ReceivedBy(s.received, token)
  {
    hide Keyed, Ids, Insert, Triage, WriteLine, Replay, Keep, Expire;
    match op
    case Append(e) =>
      DispatchOnce(s.subs, s.received, e, token, Scope("", ""));
    case Unsubscribe(other) =>
      WithoutKeepsTokens(s.subs, other);
      var rest := Without(s.subs, other);
      forall i | 0 <= i < |rest|
        ensures rest[i].token != token
      {
        assert rest[i] in s.subs;
      }
      hide Without;
    case Subscribe(_) =>
    case SetInbox(_, _, _) =>
    case Collect(_, _) =>
  }

  /** A cancelled subscription hears nothing more: its token is not handed out again in this process. */
  lemma {:induction false} UnsubscribedHearsNothing(s: BusState, token: nat, ops: seq<Op>)
    requires Valid(s) && token < s.nextToken && NamedAppends(ops) && Reopen !in ops
    ensures var s' := Run(Step(s, Unsubscribe(token)), ops);
      && Valid(s') && Silent(s', token)
      && ReceivedBy(s'.received, token) == ReceivedBy(s.received, token)
  {
    if ops == [] {
      StepKeepsValid(s, Unsubscribe(token));
      WithoutDrops(s.subs, token);
      hide Without, Keyed, Ids;
    } else {
      hide Step, Valid, Silent;
      var before, op := ops[..|ops| - 1], ops[|ops| - 1];
      assert op in ops;
      UnsubscribedHearsNothing(s, token, before);
      StepKeepsValid(Run(Step(s, Unsubscribe(token)), before), op);
      StaysSilent(Run(Step(s, Unsubscribe(token)), before), op, token);
    }
  }

  ghost predicate AscendingIds(es: seq<AppEvent>) {
    forall i, j | 0 <= i < j < |es| :: Less(es[i].id, es[j].id)
  }

  /** Every appended id exceeds the stored ones and those appended before it, as serial appends with generated
      ids do. */
  ghost predicate SerialAppends(t: Table, ops: seq<Op>) {
    && (forall i, r | 0 <= i < |ops| && ops[i].Append? && r in t :: Less(r.id, ops[i].e.id))
    && (forall i, j | 0 <= i < j < |ops| && ops[i].Append? && ops[j].Append? :: Less(ops[i].e.id, ops[j].e.id))
  }

  lemma {:induction false} LiveFrom(ops: seq<Op>, scope: Scope)
    ensures forall e | e in Live(ops, scope) :: exists i | 0 <= i < |ops| :: ops[i] == Append(e)
  {
    if ops != [] {
      var before, op := ops[..|ops| - 1], ops[|ops| - 1];
      LiveFrom(before, scope);
      forall e | e in Live(ops, scope)
        ensures exists i | 0 <= i < |ops| :: ops[i] == Append(e)
      {
        if e in Live(before, scope) {
          var i :| 0 <= i < |before| && before[i] == Append(e);
          assert ops[i] == Append(e);
        } else {
          assert ops[|ops| - 1] == Append(e);
        }
      }
    }
  }

  lemma {:induction false} LiveAscends(t: Table, ops: seq<Op>, scope: Scope)
    requires SerialAppends(t, ops)
    ensures AscendingIds(Live(ops, scope))
  {
    if ops != [] {
      var before, op := ops[..|ops| - 1], ops[|ops| - 1];
      LiveAscends(t, before, scope);
      LiveFrom(before, scope);
      if op.Append? {
        forall i | 0 <= i < |Live(before, scope)|
          ensures Less(Live(before, scope)[i].id, op.e.id)
        {
          assert Live(before, scope)[i] in Live(before, scope);
          var k :| 0 <= k < |before| && before[k] == Append(Live(before, scope)[i]);
          assert ops[k] == before[k];
        }
      }
    }
  }

  /** With serial appends the whole received sequence ascends strictly, so nothing is repeated or misplaced at
      the switch from replay to live. */
  lemma ReceivedAscends(s: BusState, scope: Scope, ops: seq<Op>)
    requires Valid(s) && SerialAppends(s.events, ops)
    ensures AscendingIds(Replay(s.events, scope) + Live(ops, scope))
  {
    var rows := Ascending(s.events, scope, "");
    var newest := Newest(rows, REPLAY_CAP);
    AscendingKeyed(s.events, scope, "");
    AscendingContents(s.events, scope, "");
    LiveAscends(s.events, ops, scope);
    LiveFrom(ops, scope);
    var replay, live := Replay(s.events, scope), Live(ops, scope);
    forall i, j | 0 <= i < |replay| && 0 <= j < |live|
      ensures Less(replay[i].id, live[j].id)
    {
      assert newest[i] in rows;
      assert live[j] in live;
      var k :| 0 <= k < |ops| && ops[k] == Append(live[j]);
    }
  }

  // ---------------------------------------------------------------- the trace file

  /** The line with its session id erased. */
  function Erase(line: Json): Json {
    if line.Object? then Object(line.fields - {"session_id"}) else line
  }

  function EraseAll(lines: seq<Json>): seq<Json> {
    seq(|lines|, i requires 0 <= i < |lines| => Erase(lines[i]))
  }

  lemma {:induction false} WithTextsSnoc(fields: map<string, Json>, texts: seq<(string, string)>, last: (string, string))
    ensures WithTexts(fields, texts + [last]) ==
            var m := WithTexts(fields, texts); if last.1 == "" then m else m[last.0 := Text(last.1)]
    decreases texts
  {
    if texts == [] {
      assert texts + [last] == [last];
      assert [last][1..] == [];
    } else {
      var (key, value) := texts[0];
      assert (texts + [last])[1..] == texts[1..] + [last];
      WithTextsSnoc(if value == "" then fields else fields[key := Text(value)], texts[1..], last);
    }
  }

  /** The optional fields before the session id. */
  function Common(e: AppEvent): map<string, Json> {
    WithTexts(Required(e), Optional(e)[..4])
  }

  /** The session id is the last optional field, and no other field has its name. */
  lemma SessionIsLast(e: AppEvent)
    ensures WithTexts(Required(e), Optional(e)) ==
            if e.sessionId == "" then Common(e) else Common(e)["session_id" := Text(e.sessionId)]
    ensures "session_id" !in Common(e)
  {
    hide KindToString, Required;
    var common := Optional(e)[..4];
    KeysDiffer(e);
    assert Optional(e) == common + [("session_id", e.sessionId)];
    WithTextsSnoc(Required(e), common, ("session_id", e.sessionId));
    assert Optional(e)[4].0 == "session_id";
    assert forall i | 0 <= i < 4 :: common[i].0 == Optional(e)[i].0 != Optional(e)[4].0;
    WithTextsLoads(Required(e), common);
    hide WithTexts;
  }

  lemma ErasedSession(m: map<string, Json>, session: Json, payload: Json)
    requires "session_id" !in m
    ensures m["session_id" := session]["payload" := payload] - {"session_id"} == m["payload" := payload]
    ensures m["payload" := payload] - {"session_id"} == m["payload" := payload]
  {
    assert |"session_id"| == 10 && |"payload"| == 7;
  }

  /** Erasing the session from a written line gives the line of the stored event. */
  lemma ErasedLine(e: AppEvent)
    ensures Erase(ToJson(e)) == ToJson(EventOf(RowOf(e)))
  {
    StoredForm(e);
    var stored := EventOf(RowOf(e));
    SessionIsLast(e);
    SessionIsLast(stored);
    assert Optional(stored)[..4] == Optional(e)[..4];
    ErasedSession(Common(e), Text(e.sessionId), ObjectOrEmpty(e.payload));
    hide WithTexts, KindToString, Optional, EventOf, RowOf;
  }

  /** Appends with non-empty, pairwise distinct ids and a space to live in; nothing is collected. */
  ghost predicate StoredHistory(ops: seq<Op>) {
    && NamedAppends(ops)
    && (forall i | 0 <= i < |ops| :: !ops[i].Collect?)
    && (forall i | 0 <= i < |ops| && ops[i].Append? :: ops[i].e.spaceId != "")
    && (forall i, j | 0 <= i < j < |ops| && ops[i].Append? && ops[j].Append? :: ops[i].e.id != ops[j].e.id)
  }

  function Rows(es: seq<AppEvent>): (rows: seq<Row>)
    ensures |rows| == |es|
  {
    seq(|es|, i requires 0 <= i < |es| => RowOf(es[i]))
  }

  /** Rows placed one by one, as a run of inserts does. */
  function PlaceAll(rows: seq<Row>): Table {
    if rows == [] then [] else Place(PlaceAll(rows[..|rows| - 1]), rows[|rows| - 1])
  }

  lemma FirstStaysFirst(t: Table, row: Row, scope: Scope)
    requires Keyed(t) && (t == [] || Less(row.id, t[0].id))
    ensures var rows := Ascending(t, scope, ""); rows == [] || Less(row.id, rows[0].id)
  {
    var rows := Ascending(t, scope, "");
    if rows != [] {
      AscendingContents(t, scope, "");
      assert rows[0] in rows;
      var i :| 0 <= i < |t| && t[i] == rows[0];
      if i > 0 {
        Transitive(row.id, t[0].id, t[i].id);
      }
    }
  }

  /** Selecting after placing is placing among the selected. */
  lemma {:induction false} AscendingPlace(t: Table, row: Row, scope: Scope)
    requires Keyed(t)
    ensures Ascending(Place(t, row), scope, "") ==
            if Selected(row, scope, "") then Place(Ascending(t, scope, ""), row) else Ascending(t, scope, "")
  {
    if t == [] || Less(row.id, t[0].id) {
      var t' := [row] + t;
      assert t'[0] == row && t'[1..] == t;
      FirstStaysFirst(t, row, scope);
    } else {
      var rest := Place(t[1..], row);
      var t' := [t[0]] + rest;
      assert t'[0] == t[0] && t'[1..] == rest && Place(t, row) == t';
      AscendingPlace(t[1..], row, scope);
      if Selected(t[0], scope, "") {
        var rows := [t[0]] + Ascending(t[1..], scope, "");
        assert rows[0] == t[0] && rows[1..] == Ascending(t[1..], scope, "") && Ascending(t, scope, "") == rows;
        assert Place(rows, row) == [t[0]] + Place(rows[1..], row);
      } else {
        assert Ascending(t', scope, "") == Ascending(rest, scope, "");
        assert Ascending(t, scope, "") == Ascending(t[1..], scope, "");
      }
    }
  }

  ghost predicate Covers(t: Table, ops: seq<Op>) {
    forall id :: id in Ids(t) <==> exists i | 0 <= i < |ops| :: ops[i].Append? && ops[i].e.id == id
  }

  lemma CoversNext(t: Table, t': Table, before: seq<Op>, op: Op)
    requires Covers(t, before)
    requires Ids(t') == Ids(t) + if op.Append? then {op.e.id} else {}
    ensures Covers(t', before + [op])
  {
    var ops := before + [op];
    forall id
      ensures id in Ids(t') <==> exists i | 0 <= i < |ops| :: ops[i].Append? && ops[i].e.id == id
    {
      if id in Ids(t) {
        var i :| 0 <= i < |before| && before[i].Append? && before[i].e.id == id;
        assert ops[i] == before[i];
      } else if op.Append? && id == op.e.id {
        assert ops[|before|] == op;
      }
      if i :| 0 <= i < |ops| && ops[i].Append? && ops[i].e.id == id && i < |before| {
        assert before[i] == ops[i];
      }
    }
  }

  /** After a history of appends the file of a run holds the run's lines in append order, and the table's rows
      of the run are the same rows placed one by one. */
  lemma {:induction false} HistoryOf(ops: seq<Op>, flowId: string, runId: string)
    requires StoredHistory(ops) && flowId != "" && runId != ""
    ensures var s := Run(FRESH_BUS, ops);
      var es := Live(ops, Scope(flowId, runId));
      && Valid(s) && Covers(s.events, ops)
      && LinesOf(s.trace, flowId, runId) == Lines(es)
      && Ascending(s.events, Scope(flowId, runId), "") == PlaceAll(Rows(es))
  {
    hide Ascending, Valid, PlaceAll, Rows, Lines, Ids, LinesOf, ScopeMatches, StoredHistory, Covers, Step;
    StoredPrefix(ops);
    if ops == [] {
      EmptyHistory(Scope(flowId, runId));
      RunKeepsValid(FRESH_BUS, ops);
    } else {
      var before, op := ops[..|ops| - 1], ops[|ops| - 1];
      assert ops == before + [op];
      HistoryOf(before, flowId, runId);
      RunKeepsValid(FRESH_BUS, ops);
      var s := Run(FRESH_BUS, before);
      if op.Append? {
        AppendIsStep(s, op.e);
        HistoryStep(s, before, op.e, Scope(flowId, runId));
      } else {
        NotStored(s, op);
        assert Live(ops, Scope(flowId, runId)) == Live(before, Scope(flowId, runId));
      }
      CoversNext(s.events, Run(FRESH_BUS, ops).events, before, op);
    }
  }

  lemma StoredPrefix(ops: seq<Op>)
    requires StoredHistory(ops)
    ensures NamedAppends(ops) && Valid(FRESH_BUS)
    ensures ops != [] ==> StoredHistory(ops[..|ops| - 1]) && !ops[|ops| - 1].Collect?
  {
  }

  lemma AppendIsStep(s: BusState, e: AppEvent)
    ensures Step(s, Append(e)) == AppendStep(s, e)
  {
  }

  /** Neither subscribing nor marking the inbox touches the table or the traces. */
  lemma NotStored(s: BusState, op: Op)
    requires !op.Append? && !op.Collect?
    ensures Step(s, op).events == s.events && Step(s, op).trace == s.trace
  {
  }

  lemma EmptyHistory(scope: Scope)
    ensures Rows([]) == [] && Lines([]) == [] && PlaceAll([]) == [] && Ascending([], scope, "") == []
    ensures LinesOf(FRESH_BUS.trace, scope.flowId, scope.runId) == [] && Covers(FRESH_BUS.events, [])
  {
  }

  lemma HistoryStep(s: BusState, before: seq<Op>, e: AppEvent, scope: Scope)
    requires Valid(s) && Covers(s.events, before) && StoredHistory(before + [Append(e)])
    requires scope.flowId != "" && scope.runId != ""
    requires LinesOf(s.trace, scope.flowId, scope.runId) == Lines(Live(before, scope))
    requires Ascending(s.events, scope, "") == PlaceAll(Rows(Live(before, scope)))
    ensures var s', es := AppendStep(s, e), Live(before + [Append(e)], scope);
      && Ids(s'.events) == Ids(s.events) + {e.id}
      && LinesOf(s'.trace, scope.flowId, scope.runId) == Lines(es)
      && Ascending(s'.events, scope, "") == PlaceAll(Rows(es))
  {
    hide Ascending, Keyed, PlaceAll, Place, Rows, Lines, ToJson, RowOf, Dispatch, Triage, Selected;
    var ops := before + [Append(e)];
    var row, es := RowOf(e), Live(before, scope);
    assert ops[|before|] == Append(e) && ops[..|before|] == before;
    assert row.id == e.id && row.spaceId == e.spaceId by {
      ColumnsOf(e);
    }
    assert row.id !in Ids(s.events) by {
      assert forall i | 0 <= i < |before| :: ops[i] == before[i];
    }
    InsertKeepsKeys(s.events, row);
    AscendingPlace(s.events, row, scope);
    ScopesAgree(scope, e);
    OneMore(es, e);
    assert Live(ops, scope) == es + if ScopeMatches(scope, e) then [e] else [];
    if !ScopeMatches(scope, e) {
      assert Live(ops, scope) == es;
    }
  }

  lemma ColumnsOf(e: AppEvent)
    ensures RowOf(e).id == e.id && RowOf(e).spaceId == e.spaceId
  {
  }

  lemma OneMore(es: seq<AppEvent>, e: AppEvent)
    ensures Rows(es + [e]) == Rows(es) + [RowOf(e)]
    ensures Lines(es + [e]) == Lines(es) + [ToJson(e)]
    ensures PlaceAll(Rows(es + [e])) == Place(PlaceAll(Rows(es)), RowOf(e))
  {
    assert Rows(es + [e])[..|es|] == Rows(es);
  }

  lemma {:induction false} PlaceLast(t: Table, row: Row)
    requires forall i | 0 <= i < |t| :: Less(t[i].id, row.id)
    ensures Place(t, row) == t + [row]
  {
    if t != [] {
      Asymmetric(t[0].id, row.id);
      PlaceLast(t[1..], row);
    }
  }

  lemma {:induction false} PlaceAllInOrder(rows: seq<Row>)
    requires forall i, j | 0 <= i < j < |rows| :: Less(rows[i].id, rows[j].id)
    ensures PlaceAll(rows) == rows
  {
    if rows != [] {
      PlaceAllInOrder(rows[..|rows| - 1]);
      PlaceLast(rows[..|rows| - 1], rows[|rows| - 1]);
    }
  }

  /** The erased lines of appended events are the lines of their rows. */
  lemma ErasedLines(es: seq<AppEvent>)
    ensures EraseAll(Lines(es)) == Lines(Events(Rows(es)))
  {
    hide Erase, ToJson, EventOf, RowOf;
    forall i | 0 <= i < |es|
      ensures EraseAll(Lines(es))[i] == Lines(Events(Rows(es)))[i]
    {
      ErasedLine(es[i]);
    }
  }

  /** Rows that print the same lines have the same ids. */
  lemma SameLinesSameIds(a: seq<Row>, b: seq<Row>)
    requires Lines(Events(a)) == Lines(Events(b))
    ensures |a| == |b| && forall i | 0 <= i < |a| :: a[i].id == b[i].id
  {
    hide ToJson, ObjectOrEmpty, KindFromString;
    assert |a| == |Lines(Events(a))| == |b|;
    forall i | 0 <= i < |a|
      ensures a[i].id == b[i].id
    {
      assert Lines(Events(a))[i] == ToJson(EventOf(a[i])) && Lines(Events(b))[i] == ToJson(EventOf(b[i]));
      SameLine(EventOf(a[i]), EventOf(b[i]));
    }
  }

  lemma RowIds(es: seq<AppEvent>)
    ensures forall i | 0 <= i < |es| :: Rows(es)[i].id == es[i].id
  {
  }

  /** The rebuilt file equals the file written live, with session ids erased, exactly when the run's events
      were appended in id order. */
  lemma RebuildAgrees(ops: seq<Op>, flowId: string, runId: string)
    requires StoredHistory(ops) && flowId != "" && runId != ""
    ensures var s := Run(FRESH_BUS, ops);
      RebuiltLines(s.events, flowId, runId) == EraseAll(LinesOf(s.trace, flowId, runId)) <==>
      AscendingIds(Live(ops, Scope(flowId, runId)))
  {
    HistoryOf(ops, flowId, runId);
    hide Run, Ascending, PlaceAll, Rows, Lines, Events, EraseAll, Live, Less, StoredHistory, Covers, Ids, LinesOf;
    var s := Run(FRESH_BUS, ops);
    var es := Live(ops, Scope(flowId, runId));
    var rows := Ascending(s.events, Scope(flowId, runId), "");
    ErasedLines(es);
    RowIds(es);
    if AscendingIds(es) {
      PlaceAllInOrder(Rows(es));
    }
    if Lines(Events(rows)) == Lines(Events(Rows(es))) {
      AscendingKeyed(s.events, Scope(flowId, runId), "");
      SameLinesSameIds(rows, Rows(es));
    }
  }

  /** Erasing changes nothing in the lines of events without a session id. */
  lemma NothingErased(es: seq<AppEvent>)
    requires forall i | 0 <= i < |es| :: es[i].sessionId == ""
    ensures EraseAll(Lines(es)) == Lines(es)
  {
    hide ToJson;
    forall i | 0 <= i < |es|
      ensures Erase(Lines(es)[i]) == Lines(es)[i]
    {
      ErasedLine(es[i]);
      StoredForm(es[i]);
      SameLine(es[i], EventOf(RowOf(es[i])));
    }
  }

  /** A stored row prints no session id, so what prints the same has none. */
  lemma NoSessionRebuilt(rows: seq<Row>, es: seq<AppEvent>)
    requires Lines(Events(rows)) == Lines(es)
    ensures forall i | 0 <= i < |es| :: es[i].sessionId == ""
  {
    hide ToJson;
    assert |rows| == |Lines(Events(rows))| == |es|;
    forall i | 0 <= i < |es|
      ensures es[i].sessionId == ""
    {
      assert Lines(Events(rows))[i] == ToJson(EventOf(rows[i])) && Lines(es)[i] == ToJson(es[i]);
      SameLine(EventOf(rows[i]), es[i]);
    }
  }

  /** The two files are identical exactly when, besides, no event of the run carries a session id. */
  lemma RebuildIdentical(ops: seq<Op>, flowId: string, runId: string)
    requires StoredHistory(ops) && flowId != "" && runId != ""
    ensures var s, es := Run(FRESH_BUS, ops), Live(ops, Scope(flowId, runId));
      RebuiltLines(s.events, flowId, runId) == LinesOf(s.trace, flowId, runId) <==>
      AscendingIds(es) && forall i | 0 <= i < |es| :: es[i].sessionId == ""
  {
    RebuildAgrees(ops, flowId, runId);
    HistoryOf(ops, flowId, runId);
    hide Run, Ascending, PlaceAll, Rows, Lines, Events, EraseAll, Live, StoredHistory, Covers, Ids, LinesOf, AscendingIds;
    var s, es := Run(FRESH_BUS, ops), Live(ops, Scope(flowId, runId));
    if RebuiltLines(s.events, flowId, runId) == LinesOf(s.trace, flowId, runId) {
      NoSessionRebuilt(Ascending(s.events, Scope(flowId, runId), ""), es);
      NothingErased(es);
    }
    if forall i | 0 <= i < |es| :: es[i].sessionId == "" {
      NothingErased(es);
    }
  }
}

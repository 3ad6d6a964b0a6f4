/** The per-space event bus: append, page, replay-then-live subscription, inbox triage and collection. Every
    public operation is one critical section, so a history is a sequence of them. */
module EventBus {
  import opened Wrappers
  import opened AppEvents
  import opened EventStore
  import opened Sequences
  import UuidV7

  const CURRENT_USER: string := "me"

  datatype InboxState = Unread | Read | Snoozed

  function InboxStateToString(s: InboxState): string {
    match s
    case Unread => "unread"
    case Read => "read"
    case Snoozed => "snoozed"
  }

  function InboxStateFromString(s: string): Option<InboxState> {
    if s == "unread" then Some(Unread) else if s == "read" then Some(Read)
    else if s == "snoozed" then Some(Snoozed) else None
  }

  lemma InboxStateCodec(state: InboxState, s: string)
    ensures InboxStateFromString(s) == Some(state) <==> s == InboxStateToString(state)
    ensures InboxStateToString(Unread) == "unread" && InboxStateToString(Read) == "read"
    ensures InboxStateToString(Snoozed) == "snoozed"
  {
    assert |"unread"| == 6 && |"read"| == 4 && |"snoozed"| == 7;
  }

  datatype InboxRow = InboxRow(state: InboxState, snoozeUntil: Option<int>, flowId: string, kind: string)

  datatype Subscription = Subscription(token: nat, scope: Scope)

  /** `received[t]` is what the callback of subscription t has been called with, in order; `trace` holds the
      lines of each run's trace.jsonl by (flow, run). */
  datatype BusState = BusState(
    events: Table,
    inbox: map<string, InboxRow>,
    subs: seq<Subscription>,
    received: map<nat, seq<AppEvent>>,
    trace: map<(string, string), seq<Json>>,
    nextToken: nat)

  // ---------------------------------------------------------------- Append

  predicate ScopeMatches(s: Scope, e: AppEvent) {
    && (s.flowId == "" || s.flowId == e.flowId)
    && (s.runId == "" || s.runId == e.runId)
  }

  /** The live filter and the SQL filter agree. */
  lemma ScopesAgree(s: Scope, e: AppEvent)
    ensures ScopeMatches(s, e) <==> Selected(RowOf(e), s, "")
  {
  }

  predicate TriageNeedsAction(e: AppEvent) {
    match e.kind
    case ReviewEvent => e.payload.HasTextEqual("verdict", "request_changes") && e.payload.HasTextEqual("reviewer", "human")
    case TextKind =>
      && e.payload.Has("mentions") && e.payload.fields["mentions"].Array?
      && exists i | 0 <= i < |e.payload.fields["mentions"].items| ::
           e.payload.fields["mentions"].items[i] == Text(CURRENT_USER)
    case Error => !e.payload.HasTextEqual("scope", "tool")
    case System => e.payload.HasTextEqual("subkind", "run_paused") && e.payload.HasTextEqual("cause", "human_approval")
    case _ => false
  }

  /** INSERT OR IGNORE INTO inbox; the foreign key refuses a row for an event that is not stored. */
  function Triage(events: Table, inbox: map<string, InboxRow>, e: AppEvent): map<string, InboxRow> {
    if TriageNeedsAction(e) && e.id in Ids(events) && e.id !in inbox
    then inbox[e.id := InboxRow(Unread, None, e.flowId, KindToString(e.kind))]
    else inbox
  }

  function LinesOf(trace: map<(string, string), seq<Json>>, flowId: string, runId: string): seq<Json> {
    if (flowId, runId) in trace then trace[(flowId, runId)] else []
  }

  function WriteLine(trace: map<(string, string), seq<Json>>, e: AppEvent): map<(string, string), seq<Json>> {
    if e.runId == "" || e.flowId == "" then trace
    else trace[(e.flowId, e.runId) := LinesOf(trace, e.flowId, e.runId) + [ToJson(e)]]
  }

  function ReceivedBy(received: map<nat, seq<AppEvent>>, token: nat): seq<AppEvent> {
    if token in received then received[token] else []
  }

  function Dispatch(subs: seq<Subscription>, received: map<nat, seq<AppEvent>>, e: AppEvent): map<nat, seq<AppEvent>>
    decreases subs
  {
    if subs == [] then received else
    var s := subs[0];
    Dispatch(subs[1..],
      if ScopeMatches(s.scope, e) then received[s.token := ReceivedBy(received, s.token) + [e]] else received, e)
  }

  /** The critical section of Append, for an event whose id, time and space are filled in. */
  function AppendStep(s: BusState, e: AppEvent): BusState {
    var events := Insert(s.events, RowOf(e));
    s.(events := events,
       inbox := Triage(events, s.inbox, e),
       trace := WriteLine(s.trace, e),
       received := Dispatch(s.subs, s.received, e))
  }

  function Filled(e: AppEvent, id: string, now: int, spaceId: string): AppEvent {
    e.(id := id,
       tsMs := if e.tsMs == 0 then now else e.tsMs,
       spaceId := if e.spaceId == "" then spaceId else e.spaceId)
  }

  // ---------------------------------------------------------------- Subscribe

  const PAGE: nat := 1000
  const REPLAY_CAP: nat := 11000

  function Newest<T>(s: seq<T>, n: nat): seq<T> {
    if |s| <= n then s else s[|s| - n..]
  }

  /** The newest 11000 stored matches, oldest first. */
  function Replay(events: Table, scope: Scope): seq<AppEvent> {
    Events(Newest(Ascending(events, scope, ""), REPLAY_CAP))
  }

  function SubscribeStep(s: BusState, scope: Scope): BusState {
    s.(received := s.received[s.nextToken := Replay(s.events, scope)],
       subs := s.subs + [Subscription(s.nextToken, scope)],
       nextToken := s.nextToken + 1)
  }

  /** Removes the first subscription with the token. */
  function Without(subs: seq<Subscription>, token: nat): seq<Subscription> {
    if subs == [] then []
    else if subs[0].token == token then subs[1..]
    else [subs[0]] + Without(subs[1..], token)
  }

  lemma WithoutNext(subs: seq<Subscription>, token: nat, i: nat)
    requires i < |subs|
    ensures Without(subs[i..], token) ==
            if subs[i].token == token then subs[i + 1..] else [subs[i]] + Without(subs[i + 1..], token)
    ensures subs[..i] + ([subs[i]] + Without(subs[i + 1..], token)) == subs[..i + 1] + Without(subs[i + 1..], token)
  {
    assert subs[i..][0] == subs[i] && subs[i..][1..] == subs[i + 1..];
    hide Without;
    assert subs[..i + 1] == subs[..i] + [subs[i]];
  }

  lemma WithoutNone(subs: seq<Subscription>, token: nat)
    ensures subs[..|subs|] + Without(subs[|subs|..], token) == subs
  {
  }

  // ---------------------------------------------------------------- inbox

  function SetInboxStep(s: BusState, id: string, state: InboxState, until: Option<int>): BusState {
    if id in s.inbox then s.(inbox := s.inbox[id := s.inbox[id].(state := state, snoozeUntil := until)]) else s
  }

  predicate Expired(r: InboxRow, now: int) {
    r.state == Snoozed && r.snoozeUntil.Some? && r.snoozeUntil.value <= now
  }

  function Expire(inbox: map<string, InboxRow>, now: int): map<string, InboxRow> {
    map id | id in inbox ::
      if Expired(inbox[id], now) then inbox[id].(state := Unread, snoozeUntil := None) else inbox[id]
  }

  predicate Collectable(r: Row, inbox: map<string, InboxRow>, olderThan: int) {
    r.tsMs < olderThan && !(r.id in inbox && inbox[r.id].state in {Unread, Snoozed})
  }

  function Keep(t: Table, inbox: map<string, InboxRow>, olderThan: int): (kept: Table)
    ensures |kept| <= |t|
  {
    if t == [] then []
    else (if Collectable(t[0], inbox, olderThan) then [] else [t[0]]) + Keep(t[1..], inbox, olderThan)
  }

  /** Expire, delete, and cascade the deletion to the inbox. */
  function CollectStep(s: BusState, now: int, olderThan: int): BusState {
    var inbox := Expire(s.inbox, now);
    var kept := Keep(s.events, inbox, olderThan);
    s.(events := kept, inbox := map id | id in inbox && !(id in Ids(s.events) && id !in Ids(kept)) :: inbox[id])
  }

  function Collected(s: BusState, now: int, olderThan: int): nat {
    |s.events| - |Keep(s.events, Expire(s.inbox, now), olderThan)|
  }

  // ---------------------------------------------------------------- pages

  /** The cursor to pass on once the newest `done` of the selected rows have been read. */
  function CursorAfter(all: seq<Row>, done: nat): string
    requires done <= |all|
  {
    if done == 0 then "" else all[|all| - done].id
  }

  /** One step of the walk from the newest match down: the page holds the next `limit` matches, or all that
      are left. */
  lemma PageIsNext(t: Table, scope: Scope, done: nat, limit: nat)
    requires Keyed(t) && done <= |Ascending(t, scope, "")|
    ensures var all := Ascending(t, scope, "");
      var page := Select(t, scope, CursorAfter(all, done), limit);
      && |page| == (if |all| - done < limit then |all| - done else limit)
      && page == Reverse(all)[done..done + |page|]
  {
    hide Ascending, CursorAfter, Keyed, Reverse;
    var all := Ascending(t, scope, "");
    BelowCursor(t, scope, done);
    ReversedPrefix(all, done);
    var page := Select(t, scope, CursorAfter(all, done), limit);
    var rest := Reverse(all)[done..];
    assert page == if |rest| <= limit then rest else rest[..limit];
  }

  lemma BelowCursor(t: Table, scope: Scope, done: nat)
    requires Keyed(t) && done <= |Ascending(t, scope, "")|
    ensures var all := Ascending(t, scope, "");
      Ascending(t, scope, CursorAfter(all, done)) == all[..|all| - done]
  {
    hide Ascending, Keyed;
    var all := Ascending(t, scope, "");
    if done == 0 {
      assert all[..|all|] == all;
    } else {
      BelowIsPrefix(t, scope, |all| - done);
    }
  }

  lemma ReversedPrefix<T>(s: seq<T>, n: nat)
    requires n <= |s|
    ensures Reverse(s[..|s| - n]) == Reverse(s)[n..]
  {
  }

  /** The last event of a page names the cursor that continues after it. */
  lemma PageCursor(t: Table, scope: Scope, done: nat, n: nat)
    requires Keyed(t) && n > 0 && done + n <= |Ascending(t, scope, "")|
    ensures var all := Ascending(t, scope, "");
      && EventOf(Reverse(all)[done..done + n][n - 1]).id == CursorAfter(all, done + n) != ""
  {
    IdsNotEmpty(t, scope, |Ascending(t, scope, "")| - (done + n));
  }

  lemma IdsNotEmpty(t: Table, scope: Scope, n: nat)
    requires Keyed(t) && n < |Ascending(t, scope, "")|
    ensures Ascending(t, scope, "")[n].id != ""
  {
    AscendingKeyed(t, scope, "");
  }

  lemma NothingPaged(all: seq<Row>)
    ensures Events(Reverse(all)[..0]) == [] && CursorAfter(all, 0) == ""
  {
  }

  lemma EventsConcat(rows: seq<Row>, n: nat, m: nat)
    requires n + m <= |rows|
    ensures Events(rows[..n]) + Events(rows[n..n + m]) == Events(rows[..n + m])
  {
  }

  /** The replay is the reverse of the newest matches in the order they are paged in. */
  lemma NewestReversed(t: Table, scope: Scope)
    ensures var all := Ascending(t, scope, "");
      var n := if |all| < REPLAY_CAP then |all| else REPLAY_CAP;
      Reverse(Events(Reverse(all)[..n])) == Replay(t, scope)
  {
    hide Ascending, EventOf;
  }

  // ---------------------------------------------------------------- the bus object

  datatype ListQuery = ListQuery(scope: Scope, beforeId: string, limit: int)

  datatype ListResult = ListResult(events: seq<AppEvent>, cursor: string)

  function Clamp(limit: int): (n: nat)
    ensures 1 <= n <= 1000
  {
    if limit < 1 then 1 else if limit > 1000 then 1000 else limit
  }

  class Bus {
    const spaceId: string
    var events: Table
    var inbox: map<string, InboxRow>
    var subs: seq<Subscription>
    var received: map<nat, seq<AppEvent>>
    var trace: map<(string, string), seq<Json>>
    var nextToken: nat

    ghost function State(): BusState
      reads this
    {
      BusState(events, inbox, subs, received, trace, nextToken)
    }

    constructor (spaceId: string)
      ensures State() == BusState([], map[], [], map[], map[], 1)
      ensures this.spaceId == spaceId
    {
      this.spaceId := spaceId;
      events, inbox, subs, received, trace, nextToken := [], map[], [], map[], map[], 1;
    }

    /** `now` is the clock, `tail` the random bits the generator draws when the id is left empty. */
    method Append(evt: AppEvent, gen: UuidV7.Generator, now: int, tail: nat) returns (id: string)
      requires gen.Valid()
      modifies this, gen
      ensures gen.Valid()
      ensures if evt.id != "" then id == evt.id && gen.Stamp() == old(gen.Stamp())
              else id == UuidV7.IdAt(gen.Stamp(), tail) &&
                   gen.Stamp() == UuidV7.Max(old(gen.Stamp()) + 1, now * 0x1000)
      ensures State() == AppendStep(old(State()), Filled(evt, id, now, spaceId))
      ensures Filled(evt, id, now, spaceId) ==
              evt.(id := id, tsMs := if evt.tsMs == 0 then now else evt.tsMs,
                   spaceId := if evt.spaceId == "" then spaceId else evt.spaceId)
    {
      hide UuidV7.IdAt, Insert, Triage, WriteLine, RowOf;
      var e := evt;
      if e.id == "" {
        var newId := gen.MakeUuidV7(now, tail);
        e := e.(id := newId);
      }
      if e.tsMs == 0 {
        e := e.(tsMs := now);
      }
      if e.spaceId == "" {
        e := e.(spaceId := spaceId);
      }
      events := Insert(events, RowOf(e));
      inbox := Triage(events, inbox, e);
      trace := WriteLine(trace, e);
      var i := 0;
      while i < |subs|
        modifies this
        invariant 0 <= i <= |subs|
        invariant subs == old(subs) && events == Insert(old(events), RowOf(e))
        invariant inbox == Triage(events, old(inbox), e) && trace == WriteLine(old(trace), e)
        invariant nextToken == old(nextToken)
        invariant Dispatch(subs[i..], received, e) == Dispatch(old(subs), old(received), e)
      {
        if ScopeMatches(subs[i].scope, e) {
          received := received[subs[i].token := ReceivedBy(received, subs[i].token) + [e]];
        }
        assert subs[i..][1..] == subs[i + 1..];
        i := i + 1;
      }
      return e.id;
    }

    method List(q: ListQuery) returns (page: ListResult)
      ensures var n := if q.limit <= 0 then 1 else if q.limit <= 1000 then q.limit else 1000;
        && page.events == Events(Select(events, q.scope, q.beforeId, n))
        && |page.events| <= n
        && page.cursor == if |page.events| == n then page.events[n - 1].id else ""
    {
      var limit := Clamp(q.limit);
      var rows := Select(events, q.scope, q.beforeId, limit);
      var out: seq<AppEvent>, cursor := [], "";
      var i := 0;
      while i < |rows|
        invariant 0 <= i <= |rows|
        invariant out == Events(rows[..i])
      {
        out := out + [EventOf(rows[i])];
        i := i + 1;
      }
      assert rows[..i] == rows;
      if out != [] && |out| == limit {
        cursor := out[|out| - 1].id;
      }
      page := ListResult(out, cursor);
    }

    /** The paging loop of Subscribe: newest first, at most eleven full pages. */
    method PageNewest(scope: Scope) returns (buf: seq<AppEvent>)
      requires Keyed(events)
      ensures var all := Ascending(events, scope, "");
        var n := if |all| < 11000 then |all| else 11000;
        buf == Events(Reverse(all)[..n])
    {
      hide Keyed, Ascending, Select, CursorAfter, Reverse, EventOf;
      ghost var all := Ascending(events, scope, "");
      NothingPaged(all);
      buf := [];
      var before := "";
      while true
        invariant |buf| <= |all| && |buf| % 1000 == 0 && |buf| <= 10000
        invariant buf == Events(Reverse(all)[..|buf|])
        invariant before == CursorAfter(all, |buf|)
        decreases |all| - |buf|
      {
        PageIsNext(events, scope, |buf|, PAGE);
        var page := List(ListQuery(scope, before, PAGE));
        if page.events == [] {
          break;
        }
        PageCursor(events, scope, |buf|, |page.events|);
        EventsConcat(Reverse(all), |buf|, |page.events|);
        buf := buf + page.events;
        if page.cursor == "" {
          break;
        }
        before := page.cursor;
        if |buf| > 10000 {
          break;
        }
      }
    }

    method Subscribe(scope: Scope) returns (token: nat)
      requires Keyed(events)
      modifies this
      ensures token == old(nextToken)
      ensures State() == SubscribeStep(old(State()), scope)
    {
      hide Keyed, Ascending;
      var buf := PageNewest(scope);
      NewestReversed(events, scope);
      hide Replay, Newest, Events;
      var replay: seq<AppEvent>, i := [], |buf|;
      while i > 0
        invariant 0 <= i <= |buf|
        invariant replay == Reverse(buf[i..])
      {
        i := i - 1;
        replay := replay + [buf[i]];
      }
      assert buf[0..] == buf;
      token := nextToken;
      received := received[token := replay];
      nextToken := nextToken + 1;
      subs := subs + [Subscription(token, scope)];
    }

    method Unsubscribe(token: nat)
      modifies this
      ensures State() == old(State()).(subs := Without(old(subs), token))
    {
      hide Without;
      var i := 0;
      assert subs[..0] == [] && subs[0..] == subs;
      while i < |subs|
        invariant 0 <= i <= |subs| && State() == old(State())
        invariant Without(subs, token) == subs[..i] + Without(subs[i..], token)
      {
        WithoutNext(subs, token, i);
        if subs[i].token == token {
          subs := subs[..i] + subs[i + 1..];
          return;
        }
        i := i + 1;
      }
      WithoutNone(subs, token);
    }

    method SetInboxState(id: string, state: InboxState, until: Option<int>) returns (changed: bool)
      modifies this
      ensures changed == (id in old(inbox))
      ensures State() == SetInboxStep(old(State()), id, state, until)
      ensures forall i :: i in inbox <==> i in old(inbox)
      ensures forall i | i in inbox ::
        inbox[i] == if i == id then old(inbox)[i].(state := state, snoozeUntil := until) else old(inbox)[i]
    {
      changed := id in inbox;
      if changed {
        inbox := inbox[id := inbox[id].(state := state, snoozeUntil := until)];
      }
    }

    method GarbageCollect(now: int, olderThan: int) returns (count: nat)
      modifies this
      ensures State() == CollectStep(old(State()), now, olderThan)
      ensures count == Collected(old(State()), now, olderThan)
      ensures count + |events| == |old(events)|
    {
      inbox := Expire(inbox, now);
      var kept := Keep(events, inbox, olderThan);
      count := |events| - |kept|;
      inbox := map id | id in inbox && !(id in Ids(events) && id !in Ids(kept)) :: inbox[id];
      events := kept;
    }
  }
}

/** The events table and the one SELECT the bus runs over it. The table is the sequence of its rows in
    primary-key order. */
module EventStore {
  import opened Wrappers
  import opened TextOrder
  import opened AppEvents
  import opened Sequences

  /** The columns; a NULL flow, run or agent is the empty text. There is no session column. */
  datatype Row = Row(
    id: string, tsMs: int, spaceId: string, flowId: string, runId: string, agentId: string,
    kind: string, payload: Json)

  datatype Scope = Scope(flowId: string, runId: string)

  type Table = seq<Row>

  ghost predicate Keyed(t: Table) {
    && (forall i | 0 <= i < |t| :: t[i].id != "")
    && (forall i, j | 0 <= i < j < |t| :: Less(t[i].id, t[j].id))
  }

  function Ids(t: Table): set<string> {
    set i | 0 <= i < |t| :: t[i].id
  }

  // ---------------------------------------------------------------- columns and events

  function RowOf(e: AppEvent): Row {
    Row(e.id, e.tsMs, e.spaceId, e.flowId, e.runId, e.agentId, KindToString(e.kind), ObjectOrEmpty(e.payload))
  }

  function EventOf(r: Row): AppEvent {
    var kind := match KindFromString(r.kind) case Some(k) => k case None => System;
    AppEvent(r.id, r.tsMs, r.spaceId, r.flowId, r.runId, r.agentId, "", kind, ObjectOrEmpty(r.payload))
  }

  /** What a stored event reads back as: all of it but the session id. The payload that is stored is an object. */
  lemma StoredForm(e: AppEvent)
    ensures RowOf(e).payload.Object?
    ensures EventOf(RowOf(e)) == e.(sessionId := "", payload := ObjectOrEmpty(e.payload))
  {
    KindCodec(e.kind, KindToString(e.kind));
  }

  function Events(rows: seq<Row>): (es: seq<AppEvent>)
    ensures |es| == |rows|
  {
    seq(|rows|, i requires 0 <= i < |rows| => EventOf(rows[i]))
  }

  // ---------------------------------------------------------------- INSERT

  /** The row put at its place in key order. */
  function Place(t: Table, row: Row): (t': Table)
    ensures |t'| == |t| + 1
  {
    if t == [] || Less(row.id, t[0].id) then [row] + t else [t[0]] + Place(t[1..], row)
  }

  /** INSERT INTO events: a taken id or a NULL space violates a constraint and changes nothing. */
  function Insert(t: Table, row: Row): Table {
    if row.id in Ids(t) || row.spaceId == "" then t else Place(t, row)
  }

  lemma {:induction false} PlaceContents(t: Table, row: Row)
    ensures forall r :: r in Place(t, row) <==> r == row || r in t
  {
    if t != [] && !Less(row.id, t[0].id) {
      PlaceContents(t[1..], row);
      assert t == [t[0]] + t[1..];
    }
  }

  lemma IdsContents(t: Table, id: string)
    ensures id in Ids(t) <==> exists r :: r in t && r.id == id
  {
    if id in Ids(t) {
      var i :| 0 <= i < |t| && t[i].id == id;
      assert t[i] in t;
    }
  }

  lemma {:induction false} PlaceKeyed(t: Table, row: Row)
    requires Keyed(t) && row.id != "" && row.id !in Ids(t)
    ensures Keyed(Place(t, row))
  {
    if t != [] {
      Total(row.id, t[0].id);
      if Less(row.id, t[0].id) {
        forall i | 0 < i < |t|
          ensures Less(row.id, t[i].id)
        {
          Transitive(row.id, t[0].id, t[i].id);
        }
      } else {
        assert t[0].id in Ids(t);
        forall i | 0 <= i < |t[1..]|
          ensures t[1..][i].id in Ids(t)
        {
          assert t[1..][i] == t[i + 1];
        }
        PlaceKeyed(t[1..], row);
        PlaceContents(t[1..], row);
        var rest := Place(t[1..], row);
        forall i | 0 <= i < |rest|
          ensures Less(t[0].id, rest[i].id)
        {
          assert rest[i] in rest;
          if rest[i] != row {
            var j :| 0 <= j < |t[1..]| && t[1..][j] == rest[i];
            assert t[j + 1] == rest[i];
          }
        }
      }
    }
  }

  lemma InsertKeepsKeys(t: Table, row: Row)
    requires Keyed(t) && row.id != ""
    ensures Keyed(Insert(t, row))
    ensures Ids(t) <= Ids(Insert(t, row)) <= Ids(t) + {row.id}
    ensures row.spaceId != "" ==> row.id in Ids(Insert(t, row))
  {
    var t' := Insert(t, row);
    if t' != t {
      PlaceKeyed(t, row);
      PlaceContents(t, row);
      forall id
        ensures id in Ids(t') <==> id in Ids(t) || id == row.id
      {
        IdsContents(t, id);
        IdsContents(t', id);
        if id == row.id {
          assert row in t';
        }
      }
    }
  }

  /** What an insert leaves: the old rows, and the new one unless its id is taken or it has no space. */
  lemma InsertContents(t: Table, row: Row, r: Row)
    ensures r in Insert(t, row) <==>
            r in t || (r == row && row.spaceId != "" && forall q | q in t :: q.id != row.id)
  {
    PlaceContents(t, row);
    IdsContents(t, row.id);
  }

  // ---------------------------------------------------------------- SELECT

  /** The WHERE clause: an empty scope field or an empty cursor adds no condition. */
  predicate Selected(r: Row, scope: Scope, before: string) {
    && (scope.flowId != "" ==> r.flowId == scope.flowId)
    && (scope.runId != "" ==> r.runId == scope.runId)
    && (before != "" ==> Less(r.id, before))
  }

  function Ascending(t: Table, scope: Scope, before: string): (rows: seq<Row>)
    ensures |rows| <= |t|
  {
    if t == [] then []
    else (if Selected(t[0], scope, before) then [t[0]] else []) + Ascending(t[1..], scope, before)
  }

  /** SELECT ... WHERE ... ORDER BY id DESC LIMIT limit. */
  function Select(t: Table, scope: Scope, before: string, limit: nat): seq<Row> {
    var rows := Reverse(Ascending(t, scope, before));
    if |rows| <= limit then rows else rows[..limit]
  }

  lemma {:induction false} AscendingContents(t: Table, scope: Scope, before: string)
    ensures forall r :: r in Ascending(t, scope, before) <==> r in t && Selected(r, scope, before)
  {
    if t != [] {
      AscendingContents(t[1..], scope, before);
      assert t == [t[0]] + t[1..];
    }
  }

  lemma {:induction false} AscendingKeyed(t: Table, scope: Scope, before: string)
    requires Keyed(t)
    ensures Keyed(Ascending(t, scope, before))
  {
    if t != [] {
      AscendingKeyed(t[1..], scope, before);
      AscendingContents(t[1..], scope, before);
      var rest := Ascending(t[1..], scope, before);
      forall i | 0 <= i < |rest|
        ensures Less(t[0].id, rest[i].id)
      {
        assert rest[i] in rest;
        var j :| 0 <= j < |t[1..]| && t[1..][j] == rest[i];
        assert t[j + 1] == rest[i];
      }
    }
  }

  /** Reading below the id of a selected row selects exactly the rows that precede it. */
  lemma {:induction false} BelowIsPrefix(t: Table, scope: Scope, n: nat)
    requires Keyed(t) && n < |Ascending(t, scope, "")|
    ensures Ascending(t, scope, Ascending(t, scope, "")[n].id) == Ascending(t, scope, "")[..n]
  {
    hide Less, Ascending, Selected, Keyed;
    var all := Ascending(t, scope, "");
    var before := all[n].id;
    SelectedRow(t, scope, n);
    AscendingTail(t, scope, "");
    AscendingTail(t, scope, before);
    FirstRow(t, scope, before);
    if !Selected(t[0], scope, "") {
      BelowIsPrefix(t[1..], scope, n);
    } else if n == 0 {
      assert all[0] == t[0];
      NothingBelowFirst(t, scope);
    } else {
      assert all[n] == Ascending(t[1..], scope, "")[n - 1];
      BelowIsPrefix(t[1..], scope, n - 1);
    }
  }

  /** A cursor adds the condition that the id lies below it. */
  lemma FirstRow(t: Table, scope: Scope, before: string)
    ensures t != [] && before != "" ==>
      (Selected(t[0], scope, before) <==> Selected(t[0], scope, "") && Less(t[0].id, before))
  {
  }

  lemma NothingBelowFirst(t: Table, scope: Scope)
    requires Keyed(t) && t != []
    ensures Ascending(t, scope, t[0].id) == []
  {
    var before := t[0].id;
    Irreflexive(before);
    forall i | 0 <= i < |t|
      ensures !Less(t[i].id, before)
    {
      if i > 0 {
        Asymmetric(before, t[i].id);
      }
    }
    hide Less, Ascending;
    NothingBelow(t, scope, before);
  }

  lemma AscendingTail(t: Table, scope: Scope, before: string)
    requires Keyed(t)
    ensures t != [] ==> Keyed(t[1..])
    ensures Ascending(t, scope, before) ==
            if t == [] then []
            else (if Selected(t[0], scope, before) then [t[0]] else []) + Ascending(t[1..], scope, before)
  {
    hide Less, Selected;
  }

  /** A selected row has an id, and one that exceeds that of an earlier selected first row. */
  lemma SelectedRow(t: Table, scope: Scope, n: nat)
    requires Keyed(t) && n < |Ascending(t, scope, "")|
    ensures t != [] && Ascending(t, scope, "")[n].id != ""
    ensures n > 0 && Selected(t[0], scope, "") ==> Less(t[0].id, Ascending(t, scope, "")[n].id)
  {
    AscendingKeyed(t, scope, "");
    assert Selected(t[0], scope, "") ==> Ascending(t, scope, "")[0] == t[0];
    hide Less, Selected;
  }

  lemma {:induction false} NothingBelow(t: Table, scope: Scope, before: string)
    requires before != ""
    requires forall i | 0 <= i < |t| :: !Less(t[i].id, before)
    ensures Ascending(t, scope, before) == []
  {
    if t != [] {
      NothingBelow(t[1..], scope, before);
    }
  }
}

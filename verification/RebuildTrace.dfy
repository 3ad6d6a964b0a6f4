/** Walking every page of a listing, and the rebuild of a run's trace.jsonl from the events table. */
module RebuildTrace {
  import opened TextOrder
  import opened AppEvents
  import opened EventStore
  import opened EventBus
  import opened Sequences

  /** What the pages of a walk add up to: exactly the matching rows, each once, ids strictly descending. */
  lemma WalkIsExact(t: Table, scope: Scope)
    requires Keyed(t)
    ensures var rows := Reverse(Ascending(t, scope, ""));
      && (forall r :: r in rows <==> r in t && Selected(r, scope, ""))
      && (forall i, j | 0 <= i < j < |rows| :: Less(rows[j].id, rows[i].id) && rows[i].id != rows[j].id)
  {
    var all := Ascending(t, scope, "");
    var rows := Reverse(all);
    AscendingContents(t, scope, "");
    AscendingKeyed(t, scope, "");
    forall r
      ensures r in rows <==> r in all
    {
      if r in all {
        var i :| 0 <= i < |all| && all[i] == r;
        assert rows[|all| - 1 - i] == r;
      }
    }
    forall i, j | 0 <= i < j < |rows|
      ensures Less(rows[j].id, rows[i].id) && rows[i].id != rows[j].id
    {
      assert rows[i] == all[|all| - 1 - i] && rows[j] == all[|all| - 1 - j];
      Asymmetric(rows[j].id, rows[i].id);
    }
  }

  /** Follow the cursor until it is empty. Ends for every limit, also when the last page is exactly full. */
  method WalkPages(bus: Bus, scope: Scope, limit: int) returns (all: seq<AppEvent>)
    requires Keyed(bus.events)
    ensures all == Events(Reverse(Ascending(bus.events, scope, "")))
  {
    hide Keyed, Ascending, Select, CursorAfter, Reverse, EventOf;
    ghost var rows := Ascending(bus.events, scope, "");
    NothingPaged(rows);
    all := [];
    var beforeId := "";
    while true
      invariant |all| <= |rows|
      invariant all == Events(Reverse(rows)[..|all|])
      invariant beforeId == CursorAfter(rows, |all|)
      decreases |rows| - |all|
    {
      PageIsNext(bus.events, scope, |all|, Clamp(limit));
      var page := bus.List(ListQuery(scope, beforeId, limit));
      EventsConcat(Reverse(rows), |all|, |page.events|);
      if page.events != [] {
        PageCursor(bus.events, scope, |all|, |page.events|);
      }
      all := all + page.events;
      if page.cursor == "" {
        assert Reverse(rows)[..|rows|] == Reverse(rows);
        return;
      }
      beforeId := page.cursor;
    }
  }

  function Lines(events: seq<AppEvent>): seq<Json> {
    seq(|events|, i requires 0 <= i < |events| => ToJson(events[i]))
  }

  /** The lines of the rebuilt file: the stored events of the run, oldest id first. */
  function RebuiltLines(t: Table, flowId: string, runId: string): seq<Json> {
    Lines(Events(Ascending(t, Scope(flowId, runId), "")))
  }

  method Rebuild(bus: Bus, flowId: string, runId: string) returns (lines: seq<Json>)
    requires Keyed(bus.events)
    ensures lines == RebuiltLines(bus.events, flowId, runId)
  {
    hide Keyed, Ascending, ToJson;
    var all := WalkPages(bus, Scope(flowId, runId), 1000);
    all := Reverse(all);
    assert all == Events(Ascending(bus.events, Scope(flowId, runId), ""));
    lines := [];
    var i := 0;
    while i < |all|
      invariant 0 <= i <= |all| && lines == Lines(all[..i])
    {
      lines := lines + [ToJson(all[i])];
      i := i + 1;
    }
    assert all[..i] == all;
  }
}

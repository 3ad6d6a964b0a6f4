/** One event of the typed stream, its kind tags and its JSON form. A JSON text stands for the document it
    parses to: the library's dump and parse are inverse, so two dumps are equal exactly when the documents are. */
module AppEvents {
  import opened Wrappers

  datatype Json =
    | Null
    | Bool(b: bool)
    | Number(n: int)
    | Text(s: string)
    | Array(items: seq<Json>)
    | Object(fields: map<string, Json>)
  {
    predicate Has(key: string) {
      Object? && key in fields
    }

    /** `contains(key) && [key].is_string()` */
    predicate HasText(key: string) {
      Has(key) && fields[key].Text?
    }

    predicate HasTextEqual(key: string, value: string) {
      HasText(key) && fields[key].s == value
    }
  }

  const EMPTY_OBJECT: Json := Object(map[])

  datatype Kind =
    | TextKind
    | AgentStatus
    | DocumentEvent
    | ReviewEvent
    | Handoff
    | Error
    | System
    | FileEdited
    | GitCommitCreated
    | GitPushed

  function KindToString(k: Kind): (s: string)
    ensures s != ""
  {
    match k
    case TextKind => "text"
    case AgentStatus => "agent_status"
    case DocumentEvent => "document_event"
    case ReviewEvent => "review_event"
    case Handoff => "handoff"
    case Error => "error"
    case System => "system"
    case FileEdited => "file_edited"
    case GitCommitCreated => "git_commit_created"
    case GitPushed => "git_pushed"
  }

  function KindFromString(s: string): (k: Option<Kind>) {
    if s == "text" then Some(TextKind)
    else if s == "agent_status" then Some(AgentStatus)
    else if s == "document_event" then Some(DocumentEvent)
    else if s == "review_event" then Some(ReviewEvent)
    else if s == "handoff" then Some(Handoff)
    else if s == "error" then Some(Error)
    else if s == "system" then Some(System)
    else if s == "file_edited" then Some(FileEdited)
    else if s == "git_commit_created" then Some(GitCommitCreated)
    else if s == "git_pushed" then Some(GitPushed)
    else None
  }

  /** The tag codec is a bijection between the kinds and the accepted tags. */
  lemma KindCodec(k: Kind, s: string)
    ensures KindFromString(s) == Some(k) <==> s == KindToString(k)
  {
    assert |KindToString(k)| == match k
      case TextKind => 4 case AgentStatus => 12 case DocumentEvent => 14 case ReviewEvent => 12 case Handoff => 7
      case Error => 5 case System => 6 case FileEdited => 11 case GitCommitCreated => 18 case GitPushed => 10;
    assert "agent_status"[0] != "review_event"[0];
  }

  datatype AppEvent = AppEvent(
    id: string, tsMs: int, spaceId: string, flowId: string, runId: string,
    agentId: string, sessionId: string, kind: Kind, payload: Json)

  function ObjectOrEmpty(j: Json): Json {
    if j.Object? then j else EMPTY_OBJECT
  }

  /** Optional text fields are emitted, in order, when they are not empty. */
  function WithTexts(fields: map<string, Json>, texts: seq<(string, string)>): map<string, Json>
    decreases texts
  {
    if texts == [] then fields else
    var (key, value) := texts[0];
    WithTexts(if value == "" then fields else fields[key := Text(value)], texts[1..])
  }

  function Required(e: AppEvent): map<string, Json> {
    map["id" := Text(e.id), "ts_ms" := Number(e.tsMs), "kind" := Text(KindToString(e.kind))]
  }

  function Optional(e: AppEvent): seq<(string, string)> {
    [("space_id", e.spaceId), ("flow_id", e.flowId), ("run_id", e.runId), ("agent_id", e.agentId),
     ("session_id", e.sessionId)]
  }

  function ToJson(e: AppEvent): (j: Json) {
    Object(WithTexts(Required(e), Optional(e))["payload" := ObjectOrEmpty(e.payload)])
  }

  datatype ParseError = Malformed | NotAnObject | MissingRequired | UnknownKind(tag: string)

  function Load(v: Json, key: string): string {
    if v.HasText(key) then v.fields[key].s else ""
  }

  /** `doc` is None when the text is not JSON. `out` is the event the caller passes in: its session id is
      neither read from the document nor cleared. */
  function ParseJson(doc: Option<Json>, out: AppEvent): (r: Result<AppEvent, ParseError>) {
    match doc
    case None => Err(Malformed)
    case Some(v) =>
      if !v.Object? then Err(NotAnObject)
      else if !(v.HasText("id") && v.Has("ts_ms") && v.fields["ts_ms"].Number? && v.HasText("kind")) then
        Err(MissingRequired)
      else
        match KindFromString(v.fields["kind"].s)
        case None => Err(UnknownKind(v.fields["kind"].s))
        case Some(k) =>
          var payload := if v.Has("payload") then ObjectOrEmpty(v.fields["payload"]) else EMPTY_OBJECT;
          Ok(AppEvent(v.fields["id"].s, v.fields["ts_ms"].n, Load(v, "space_id"), Load(v, "flow_id"),
                      Load(v, "run_id"), Load(v, "agent_id"), out.sessionId, k, payload))
  }

  ghost predicate DistinctKeys(texts: seq<(string, string)>) {
    forall i, j | 0 <= i < j < |texts| :: texts[i].0 != texts[j].0
  }

  /** Emitting a list of optional fields sets exactly those keys, each to its own value. */
  lemma {:induction false} WithTextsLoads(fields: map<string, Json>, texts: seq<(string, string)>)
    requires DistinctKeys(texts)
    requires forall i | 0 <= i < |texts| :: texts[i].0 !in fields
    ensures forall i | 0 <= i < |texts| :: Load(Object(WithTexts(fields, texts)), texts[i].0) == texts[i].1
    ensures forall k | k in fields :: k in WithTexts(fields, texts) && WithTexts(fields, texts)[k] == fields[k]
    ensures forall k | k in WithTexts(fields, texts) :: k in fields || exists i | 0 <= i < |texts| :: k == texts[i].0
    decreases texts
  {
    if texts != [] {
      var (key, value) := texts[0];
      var next := if value == "" then fields else fields[key := Text(value)];
      WithTextsLoads(next, texts[1..]);
      forall k | k in WithTexts(fields, texts)
        ensures k in fields || exists i | 0 <= i < |texts| :: k == texts[i].0
      {
        if i :| 0 <= i < |texts[1..]| && k == texts[1..][i].0 {
          assert k == texts[i + 1].0;
        } else if k !in fields {
          assert k in WithTexts(next, texts[1..]);
          assert k in next;
          assert k == texts[0].0;
        }
      }
      assert forall i | 0 <= i < |texts[1..]| :: texts[1..][i].0 == texts[i + 1].0 != key;
      forall i | 0 < i < |texts|
        ensures Load(Object(WithTexts(fields, texts)), texts[i].0) == texts[i].1
      {
        assert texts[i] == texts[1..][i - 1];
      }
    }
  }

  /** And it leaves out exactly those that are empty. */
  lemma {:induction false} WithTextsHas(fields: map<string, Json>, texts: seq<(string, string)>)
    requires DistinctKeys(texts)
    requires forall i | 0 <= i < |texts| :: texts[i].0 !in fields
    ensures forall i | 0 <= i < |texts| :: texts[i].0 in WithTexts(fields, texts) <==> texts[i].1 != ""
    decreases texts
  {
    WithTextsLoads(fields, texts);
    if texts != [] {
      var (key, value) := texts[0];
      var next, rest := if value == "" then fields else fields[key := Text(value)], texts[1..];
      assert forall i | 0 <= i < |rest| :: rest[i] == texts[i + 1];
      assert forall i | 0 <= i < |rest| :: rest[i].0 != key;
      WithTextsLoads(next, rest);
      WithTextsHas(next, rest);
      hide WithTexts, Load;
      assert WithTexts(fields, texts) == WithTexts(next, rest) by {
        WithTextsNext(fields, texts);
      }
      forall i | 0 < i < |texts|
        ensures texts[i].0 in WithTexts(fields, texts) <==> texts[i].1 != ""
      {
        assert rest[i - 1] == texts[i];
      }
    }
  }

  lemma WithTextsNext(fields: map<string, Json>, texts: seq<(string, string)>)
    requires texts != []
    ensures WithTexts(fields, texts) ==
      WithTexts(if texts[0].1 == "" then fields else fields[texts[0].0 := Text(texts[0].1)], texts[1..])
  {
  }

  lemma KeysDiffer(e: AppEvent)
    ensures DistinctKeys(Optional(e))
    ensures forall i | 0 <= i < |Optional(e)| :: Optional(e)[i].0 !in Required(e) && Optional(e)[i].0 != "payload"
    ensures Required(e).Keys == {"id", "ts_ms", "kind"}
    ensures "payload" !in Required(e) && Required(e)["id"] == Text(e.id) && Required(e)["ts_ms"] == Number(e.tsMs)
    ensures Required(e)["kind"] == Text(KindToString(e.kind))
  {
    hide KindToString;
    assert |"id"| == 2 && |"ts_ms"| == 5 && |"kind"| == 4 && |"space_id"| == 8 && |"flow_id"| == 7;
    assert |"run_id"| == 6 && |"agent_id"| == 8 && |"session_id"| == 10 && |"payload"| == 7;
    assert "space_id"[0] == 's' && "agent_id"[0] == 'a' && "flow_id"[0] == 'f' && "payload"[0] == 'p';
  }

  lemma EmittedTexts(e: AppEvent)
    ensures var m := WithTexts(Required(e), Optional(e));
      && Load(Object(m), "space_id") == e.spaceId && Load(Object(m), "flow_id") == e.flowId
      && Load(Object(m), "run_id") == e.runId && Load(Object(m), "agent_id") == e.agentId
      && Load(Object(m), "session_id") == e.sessionId
      && ("space_id" in m <==> e.spaceId != "") && ("flow_id" in m <==> e.flowId != "")
      && ("run_id" in m <==> e.runId != "") && ("agent_id" in m <==> e.agentId != "")
      && ("session_id" in m <==> e.sessionId != "")
      && m.Keys <= {"id", "ts_ms", "kind", "space_id", "flow_id", "run_id", "agent_id", "session_id"}
  {
    hide Load, WithTexts, Required;
    KeysDiffer(e);
    var texts := Optional(e);
    WithTextsLoads(Required(e), texts);
    WithTextsHas(Required(e), texts);
    assert texts[0] == ("space_id", e.spaceId) && texts[1] == ("flow_id", e.flowId) && texts[2] == ("run_id", e.runId);
    assert texts[3] == ("agent_id", e.agentId) && texts[4] == ("session_id", e.sessionId);
  }

  /** What the written document says about each field, and that it has no other. */
  lemma Emitted(e: AppEvent)
    ensures var j := ToJson(e);
      && j.HasTextEqual("id", e.id) && j.HasTextEqual("kind", KindToString(e.kind))
      && j.Has("ts_ms") && j.fields["ts_ms"] == Number(e.tsMs)
      && j.Has("payload") && j.fields["payload"] == ObjectOrEmpty(e.payload)
      && Load(j, "space_id") == e.spaceId && Load(j, "flow_id") == e.flowId && Load(j, "run_id") == e.runId
      && Load(j, "agent_id") == e.agentId && Load(j, "session_id") == e.sessionId
      && (j.Has("space_id") <==> e.spaceId != "") && (j.Has("flow_id") <==> e.flowId != "")
      && (j.Has("run_id") <==> e.runId != "") && (j.Has("agent_id") <==> e.agentId != "")
      && (j.Has("session_id") <==> e.sessionId != "")
      && j.fields.Keys <=
           {"id", "ts_ms", "kind", "space_id", "flow_id", "run_id", "agent_id", "session_id", "payload"}
  {
    hide KindToString, ObjectOrEmpty, WithTexts, Required, Optional;
    KeysDiffer(e);
    WithTextsLoads(Required(e), Optional(e));
    EmittedTexts(e);
    assert |"payload"| == 7 && |"space_id"| == 8 && |"flow_id"| == 7 && |"run_id"| == 6;
    assert |"agent_id"| == 8 && |"session_id"| == 10 && "payload"[0] != "flow_id"[0];
    assert |"id"| == 2 && |"ts_ms"| == 5 && |"kind"| == 4;
  }

  /** The tags of the kinds, in their order of declaration. */
  lemma KindTags(s: string)
    ensures KindFromString(s).Some? <==>
      s in {"text", "agent_status", "document_event", "review_event", "handoff", "error", "system", "file_edited",
            "git_commit_created", "git_pushed"}
    ensures KindToString(TextKind) == "text" && KindToString(AgentStatus) == "agent_status"
    ensures KindToString(DocumentEvent) == "document_event" && KindToString(ReviewEvent) == "review_event"
    ensures KindToString(Handoff) == "handoff" && KindToString(Error) == "error" && KindToString(System) == "system"
    ensures KindToString(FileEdited) == "file_edited" && KindToString(GitCommitCreated) == "git_commit_created"
    ensures KindToString(GitPushed) == "git_pushed"
  {
  }

  /** When a document is refused, and with which error. */
  lemma Refused(doc: Option<Json>, out: AppEvent)
    ensures var r := ParseJson(doc, out);
      && (r == Err(Malformed) <==> doc == None)
      && (r == Err(NotAnObject) <==> doc.Some? && !doc.value.Object?)
      && (doc.Some? && doc.value.Object? ==>
            var f := doc.value.fields;
            var complete := "id" in f && f["id"].Text? && "ts_ms" in f && f["ts_ms"].Number? && "kind" in f && f["kind"].Text?;
            && (r == Err(MissingRequired) <==> !complete)
            && (complete ==>
                  var unknown := forall k: Kind :: f["kind"].s != KindToString(k);
                  (r == Err(UnknownKind(f["kind"].s)) <==> unknown) && (r.Ok? <==> !unknown)))
  {
    if doc.Some? && doc.value.HasText("kind") {
      var tag := doc.value.fields["kind"].s;
      forall k: Kind
        ensures KindFromString(tag) == Some(k) <==> tag == KindToString(k)
      {
        KindCodec(k, tag);
      }
    }
    hide KindFromString, KindToString;
  }

  /** What an accepted document is read as: a missing or ill-typed text is empty, a missing or ill-typed payload is the
      empty object, and the session id is the caller's. */
  lemma ReadAs(v: Json, out: AppEvent)
    requires ParseJson(Some(v), out).Ok?
    ensures v.Object?
    ensures var e, f := ParseJson(Some(v), out).value, v.fields;
      && "id" in f && f["id"] == Text(e.id)
      && "ts_ms" in f && f["ts_ms"] == Number(e.tsMs)
      && "kind" in f && f["kind"] == Text(KindToString(e.kind))
      && e.spaceId == (if "space_id" in f && f["space_id"].Text? then f["space_id"].s else "")
      && e.flowId == (if "flow_id" in f && f["flow_id"].Text? then f["flow_id"].s else "")
      && e.runId == (if "run_id" in f && f["run_id"].Text? then f["run_id"].s else "")
      && e.agentId == (if "agent_id" in f && f["agent_id"].Text? then f["agent_id"].s else "")
      && e.payload == (if "payload" in f && f["payload"].Object? then f["payload"] else Object(map[]))
      && e.sessionId == out.sessionId
  {
    KindCodec(ParseJson(Some(v), out).value.kind, v.fields["kind"].s);
    hide KindFromString, KindToString;
  }

  /** Parsing a written event gives it back, except that the session id stays what the caller's event had and
      a payload that is not an object comes back as the empty object. */
  lemma RoundTrip(e: AppEvent, out: AppEvent)
    ensures ParseJson(Some(ToJson(e)), out) ==
            Ok(e.(sessionId := out.sessionId, payload := ObjectOrEmpty(e.payload)))
  {
    Emitted(e);
    KindCodec(e.kind, KindToString(e.kind));
  }

  /** Two events are written as the same line exactly when they agree on everything the line carries. */
  lemma SameLine(a: AppEvent, b: AppEvent)
    ensures ToJson(a) == ToJson(b) <==>
            a.(payload := ObjectOrEmpty(a.payload)) == b.(payload := ObjectOrEmpty(b.payload))
  {
    if ToJson(a) == ToJson(b) {
      Emitted(a);
      Emitted(b);
      KindCodec(a.kind, KindToString(a.kind));
      KindCodec(b.kind, KindToString(b.kind));
    }
  }
}

/** The two query-string readers: the one-pass lookup of the browser process and the parse-then-lookup of the
    renderer process. They are written independently and must agree. */
module QueryParsers {
  import opened Wrappers

  /** std::string::find from a position; None is npos. */
  function Find(s: string, c: char, from: nat): (r: Option<nat>)
    ensures r.Some? ==> from <= r.value < |s| && s[r.value] == c && forall i | from <= i < r.value :: s[i] != c
    ensures r.None? ==> forall i | from <= i < |s| :: s[i] != c
    decreases |s| - from
  {
    if from >= |s| then None else if s[from] == c then Some(from) else Find(s, c, from + 1)
  }

  lemma FindIs(s: string, c: char, from: nat, k: nat)
    requires from <= k < |s| && s[k] == c
    requires forall i | from <= i < k :: s[i] != c
    ensures Find(s, c, from) == Some(k)
  {
    hide Find;
    assert Find(s, c, from).Some?;
  }

  lemma FindNone(s: string, c: char, from: nat)
    requires forall i | from <= i < |s| :: s[i] != c
    ensures Find(s, c, from) == None
  {
    hide Find;
  }

  // ---------------------------------------------------------------- percent decoding

  function FromHex(c: char): (v: int)
    ensures -1 <= v < 16
  {
    if '0' <= c <= '9' then c as int - '0' as int
    else if 'A' <= c <= 'F' then 10 + (c as int - 'A' as int)
    else if 'a' <= c <= 'f' then 10 + (c as int - 'a' as int)
    else -1
  }

  predicate IsEscape(raw: string, i: nat) {
    i + 2 < |raw| && raw[i] == '%' && FromHex(raw[i + 1]) >= 0 && FromHex(raw[i + 2]) >= 0
  }

  /** Decoding from position i on. */
  function Decoded(raw: string, i: nat): (out: string)
    decreases |raw| - i
  {
    if i >= |raw| then ""
    else if IsEscape(raw, i) then
      [(FromHex(raw[i + 1]) * 16 + FromHex(raw[i + 2])) as char] + Decoded(raw, i + 3)
    else [raw[i]] + Decoded(raw, i + 1)
  }

  lemma DecodedEnd(raw: string)
    ensures Decoded(raw, |raw|) == ""
  {
  }

  /** Decoding the unit at position i: an escape, or a character as it is. */
  lemma DecodedUnit(raw: string, i: nat)
    requires i < |raw|
    ensures Decoded(raw, i) ==
      if IsEscape(raw, i) then [(FromHex(raw[i + 1]) * 16 + FromHex(raw[i + 2])) as char] + Decoded(raw, i + 3)
      else [raw[i]] + Decoded(raw, i + 1)
  {
    hide FromHex;
  }

  method PercentDecode(raw: string) returns (out: string)
    ensures out == Decoded(raw, 0)
  {
    hide FromHex, Decoded;
    DecodedEnd(raw);
    out := "";
    var i := 0;
    while i < |raw|
      invariant 0 <= i <= |raw| && out + Decoded(raw, i) == Decoded(raw, 0)
    {
      DecodedUnit(raw, i);
      if raw[i] == '%' && i + 2 < |raw| {
        var hi, lo := FromHex(raw[i + 1]), FromHex(raw[i + 2]);
        if hi >= 0 && lo >= 0 {
          out := out + [(hi * 16 + lo) as char];
          i := i + 3;
          continue;
        }
      }
      out := out + [raw[i]];
      i := i + 1;
    }
  }

  lemma DecodedEmpty(raw: string, i: nat)
    requires i <= |raw|
    ensures Decoded(raw, i) == "" <==> i == |raw|
  {
  }

  // ---------------------------------------------------------------- the query and its pairs

  /** Where the query ends: at the first '#' after the '?', or at the end of the text. */
  function QueryEnd(url: string, q: nat): (end: nat)
    requires q < |url|
    ensures q <= end <= |url|
  {
    match Find(url, '#', q) case Some(h) => h case None => |url|
  }

  /** The texts between '&'s. */
  function Segments(query: string): seq<string>
    decreases |query|
  {
    if query == "" then []
    else match Find(query, '&', 0)
      case None => [query]
      case Some(amp) => [query[..amp]] + Segments(query[amp + 1..])
  }

  function JoinAmp(segments: seq<string>): string {
    if segments == [] then ""
    else if |segments| == 1 then segments[0]
    else segments[0] + ("&" + JoinAmp(segments[1..]))
  }

  /** Joining the segments gives the query back, without an '&' at its very end; no segment holds an '&'. */
  lemma {:induction false} SegmentsJoin(query: string)
    ensures var segments := Segments(query);
      && (segments == [] <==> query == "")
      && (forall i | 0 <= i < |segments| :: '&' !in segments[i])
      && query == JoinAmp(segments) + if query != "" && query[|query| - 1] == '&' then "&" else ""
    decreases |query|
  {
    hide Find, JoinAmp, Segments;
    FirstSegment(query);
    JoinNext(query, []);
    var found := Find(query, '&', 0);
    if query != "" && found.Some? {
      var first, rest := query[..found.value], query[found.value + 1..];
      SegmentsJoin(rest);
      JoinNext(first, Segments(rest));
      AroundAmp(query, found.value);
    }
  }

  lemma FirstSegment(query: string)
    ensures var found := Find(query, '&', 0);
      Segments(query) ==
        if query == "" then []
        else if found.None? then [query] + []
        else [query[..found.value]] + Segments(query[found.value + 1..])
  {
    hide Find;
  }

  lemma AroundAmp(query: string, amp: nat)
    requires amp < |query| && query[amp] == '&'
    ensures query == query[..amp] + ("&" + query[amp + 1..])
    ensures query[amp + 1..] == "" ==> query[|query| - 1] == '&'
    ensures query[amp + 1..] != "" ==> query[|query| - 1] == query[amp + 1..][|query| - amp - 2]
  {
  }

  lemma JoinNext(first: string, rest: seq<string>)
    ensures JoinAmp([]) == ""
    ensures JoinAmp([first] + rest) == if rest == [] then first else first + ("&" + JoinAmp(rest))
  {
    assert ([first] + rest)[1..] == rest;
  }

  function UrlSegments(url: string): seq<string> {
    match Find(url, '?', 0)
    case None => []
    case Some(q) => if q < QueryEnd(url, q) then Segments(url[q + 1..QueryEnd(url, q)]) else []
  }

  predicate Assigns(segment: string, key: string) {
    var eq := Find(segment, '=', 0);
    eq.Some? && segment[..eq.value] == key
  }

  /** A pair without '=' that spells the key. The empty pair is no pair. */
  predicate IsBare(segment: string, key: string) {
    segment != "" && Find(segment, '=', 0).None? && segment == key
  }

  function RawValue(segment: string): string {
    match Find(segment, '=', 0) case Some(eq) => segment[eq + 1..] case None => ""
  }

  // ---------------------------------------------------------------- the two readers, specified

  /** What the one-pass lookup returns. */
  function FirstValue(segments: seq<string>, key: string): string {
    if segments == [] then ""
    else if Assigns(segments[0], key) then Decoded(RawValue(segments[0]), 0)
    else FirstValue(segments[1..], key)
  }

  function ParsedPair(segment: string): (string, string) {
    match Find(segment, '=', 0)
    case None => (segment, "")
    case Some(eq) => (segment[..eq], Decoded(segment[eq + 1..], 0))
  }

  function Parsed(segments: seq<string>): seq<(string, string)> {
    if segments == [] then []
    else (if segments[0] == "" then [] else [ParsedPair(segments[0])]) + Parsed(segments[1..])
  }

  function FirstPair(pairs: seq<(string, string)>, key: string): string {
    if pairs == [] then "" else if pairs[0].0 == key then pairs[0].1 else FirstPair(pairs[1..], key)
  }

  /** A bare key hides a later, non-empty value of the same key from the parsing reader. */
  predicate BareHidesValue(segments: seq<string>, key: string) {
    if segments == [] then false
    else if IsBare(segments[0], key) then FirstRaw(segments[1..], key) != ""
    else !Assigns(segments[0], key) && BareHidesValue(segments[1..], key)
  }

  function FirstRaw(segments: seq<string>, key: string): string {
    if segments == [] then ""
    else if Assigns(segments[0], key) then RawValue(segments[0])
    else FirstRaw(segments[1..], key)
  }

  lemma {:induction false} FirstValueDecodes(segments: seq<string>, key: string)
    ensures FirstValue(segments, key) == Decoded(FirstRaw(segments, key), 0)
  {
    if segments != [] && !Assigns(segments[0], key) {
      FirstValueDecodes(segments[1..], key);
    }
  }

  /** The two readers agree on a key exactly when no bare key hides a value. */
  lemma {:induction false} ReadersAgree(segments: seq<string>, key: string)
    ensures FirstValue(segments, key) == FirstPair(Parsed(segments), key) <==> !BareHidesValue(segments, key)
  {
    if segments != [] {
      var rest := segments[1..];
      if segments[0] == "" {
        assert Parsed(segments) == Parsed(rest);
        ReadersAgree(rest, key);
      } else {
        var pairs := [ParsedPair(segments[0])] + Parsed(rest);
        assert pairs == Parsed(segments) && pairs[1..] == Parsed(rest);
        if IsBare(segments[0], key) {
          FirstValueDecodes(rest, key);
          DecodedEmpty(FirstRaw(rest, key), 0);
        } else if !Assigns(segments[0], key) {
          ReadersAgree(rest, key);
        }
      }
    }
  }

  /** In particular on every URL with no bare key. */
  lemma NoBareKeyAgrees(segments: seq<string>, key: string)
    requires forall i | 0 <= i < |segments| :: !IsBare(segments[i], key)
    ensures FirstValue(segments, key) == FirstPair(Parsed(segments), key)
  {
    ReadersAgree(segments, key);
    NothingHidden(segments, key);
  }

  lemma {:induction false} NothingHidden(segments: seq<string>, key: string)
    requires forall i | 0 <= i < |segments| :: !IsBare(segments[i], key)
    ensures !BareHidesValue(segments, key)
  {
    if segments != [] {
      NothingHidden(segments[1..], key);
    }
  }

  /** A URL on which they disagree: a bare key before a value of it. */
  lemma ReadersDisagree()
    ensures var segments := UrlSegments("p?id&id=x");
      FirstValue(segments, "id") == "x" && FirstPair(Parsed(segments), "id") == ""
  {
    var segments := ["id", "id=x"];
    SegmentsOfBare();
    assert segments[1..] == ["id=x"] && ["id=x"][1..] == [];
    assert Find("id", '=', 2) == None && Find("id", '=', 1) == None && Find("id", '=', 0) == None;
    assert Find("id=x", '=', 2) == Some(2) && Find("id=x", '=', 1) == Some(2) && Find("id=x", '=', 0) == Some(2);
    assert "id=x"[..2] == "id" && "id=x"[3..] == "x";
    assert Decoded("x", 1) == "" && Decoded("x", 0) == "x";
    assert Parsed(segments)[0] == ("id", "");
  }

  lemma SegmentsOfBare()
    ensures UrlSegments("p?id&id=x") == ["id", "id=x"]
  {
    var url, query := "p?id&id=x", "id&id=x";
    assert |url| == 9 && |query| == 7;
    FindIs(url, '?', 0, 1);
    FindNone(url, '#', 1);
    assert url[2..9] == query;
    FindIs(query, '&', 0, 2);
    assert query[..2] == "id" && query[3..] == "id=x";
    FindNone("id=x", '&', 0);
    hide Find;
    assert Segments("id=x") == ["id=x"];
    assert Segments(query) == ["id"] + Segments("id=x");
  }

  // ---------------------------------------------------------------- the two readers, as loops

  /** The segments from pos on; none once pos has passed the end. */
  ghost function Remaining(url: string, pos: nat, end: nat): seq<string>
    requires end <= |url|
  {
    if pos <= end then Segments(url[pos..end]) else []
  }

  /** One step over the query: the segment at pos and where the next one starts. */
  lemma StepOver(url: string, pos: nat, end: nat)
    requires pos < end <= |url|
    ensures var found := Find(url, '&', pos);
      var amp := if found.None? || found.value > end then end else found.value;
      Remaining(url, pos, end) == [url[pos..amp]] + Remaining(url, amp + 1, end)
  {
    var query := url[pos..end];
    var found, here := Find(url, '&', pos), Find(query, '&', 0);
    var amp := if found.None? || found.value > end then end else found.value;
    assert forall i | 0 <= i < |query| :: query[i] == url[pos + i];
    if here.Some? {
      assert url[pos + here.value] == '&';
      assert amp == pos + here.value;
      assert query[..here.value] == url[pos..amp] && query[here.value + 1..] == url[amp + 1..end];
    } else {
      assert query == url[pos..amp];
    }
  }

  /** FirstValue and Parsed, unfolded at the head of a concatenation. */
  lemma HeadSegment(segment: string, rest: seq<string>, key: string)
    ensures FirstValue([segment] + rest, key) ==
            if Assigns(segment, key) then Decoded(RawValue(segment), 0) else FirstValue(rest, key)
    ensures Parsed([segment] + rest) == (if segment == "" then [] else [ParsedPair(segment)]) + Parsed(rest)
  {
    assert ([segment] + rest)[1..] == rest;
  }

  lemma QueryStarts(url: string, key: string)
    ensures match Find(url, '?', 0)
      case None => FirstValue(UrlSegments(url), key) == "" && Parsed(UrlSegments(url)) == []
      case Some(q) => q < QueryEnd(url, q) && UrlSegments(url) == Remaining(url, q + 1, QueryEnd(url, q))
  {
    hide Decoded;
  }

  lemma QueryEnds(url: string, pos: nat, end: nat, key: string)
    requires end <= pos && end <= |url|
    ensures FirstValue(Remaining(url, pos, end), key) == "" && Parsed(Remaining(url, pos, end)) == []
  {
    hide Decoded;
  }

  method LookupQueryValue(url: string, key: string) returns (value: string)
    ensures value == FirstValue(UrlSegments(url), key)
  {
    hide Segments, UrlSegments, Remaining, FirstValue, Decoded, Find, QueryEnd;
    QueryStarts(url, key);
    var q := Find(url, '?', 0);
    if q.None? {
      return "";
    }
    var end := QueryEnd(url, q.value);
    var pos := q.value + 1;
    while pos < end
      invariant q.value < pos <= end + 1 && end <= |url|
      invariant FirstValue(UrlSegments(url), key) == FirstValue(Remaining(url, pos, end), key)
      decreases end + 1 - pos
    {
      StepOver(url, pos, end);
      var amp := Find(url, '&', pos);
      var stop := if amp.None? || amp.value > end then end else amp.value;
      var pair := url[pos..stop];
      HeadSegment(pair, Remaining(url, stop + 1, end), key);
      var eq := Find(pair, '=', 0);
      if eq.Some? {
        if pair[..eq.value] == key {
          value := PercentDecode(pair[eq.value + 1..]);
          return;
        }
      }
      pos := stop + 1;
    }
    QueryEnds(url, pos, end, key);
    value := "";
  }

  method ParseQuery(url: string) returns (out: seq<(string, string)>)
    ensures out == Parsed(UrlSegments(url))
  {
    hide Segments, UrlSegments, Remaining, Parsed, Decoded, Find, QueryEnd;
    out := [];
    QueryStarts(url, "");
    var q := Find(url, '?', 0);
    if q.None? {
      return;
    }
    var end := QueryEnd(url, q.value);
    var pos := q.value + 1;
    while pos < end
      invariant q.value < pos <= end + 1 && end <= |url|
      invariant Parsed(UrlSegments(url)) == out + Parsed(Remaining(url, pos, end))
      decreases end + 1 - pos
    {
      StepOver(url, pos, end);
      ghost var before := out;
      var amp := Find(url, '&', pos);
      var stop := if amp.None? || amp.value > end then end else amp.value;
      var pair := url[pos..stop];
      HeadSegment(pair, Remaining(url, stop + 1, end), "");
      if pair != "" {
        var eq := Find(pair, '=', 0);
        if eq.None? {
          out := out + [(pair, "")];
        } else {
          var value := PercentDecode(pair[eq.value + 1..]);
          out := out + [(pair[..eq.value], value)];
        }
      }
      assert out == before + if pair == "" then [] else [ParsedPair(pair)];
      pos := stop + 1;
    }
    QueryEnds(url, pos, end, "");
  }

  method LookupQuery(pairs: seq<(string, string)>, key: string) returns (value: string)
    ensures value == FirstPair(pairs, key)
  {
    var i := 0;
    while i < |pairs|
      invariant 0 <= i <= |pairs| && FirstPair(pairs, key) == FirstPair(pairs[i..], key)
    {
      if pairs[i].0 == key {
        return pairs[i].1;
      }
      i := i + 1;
    }
    value := "";
  }
}

/** The webview URL: written by the extension host, read back by both query readers. The writer escapes seven
    characters and leaves '%' alone; the readers undo any two-digit escape. */
module WebviewUrls {
  import opened Wrappers
  import opened QueryParsers

  // ---------------------------------------------------------------- the writer

  /** trim_start_matches("./") */
  function WithoutDotSlashes(entry: string): string {
    if |entry| >= 2 && entry[0] == '.' && entry[1] == '/' then WithoutDotSlashes(entry[2..]) else entry
  }

  /** trim_start_matches('/') */
  function WithoutSlashes(entry: string): string {
    if |entry| >= 1 && entry[0] == '/' then WithoutSlashes(entry[1..]) else entry
  }

  function EscapeOne(c: char): string {
    if c == '?' then "%3F"
    else if c == '#' then "%23"
    else if c == '&' then "%26"
    else if c == '=' then "%3D"
    else if c == ' ' then "%20"
    else if c == '/' then "%2F"
    else if c == '\\' then "%5C"
    else [c]
  }

  function Escaped(text: string): string {
    if text == "" then "" else EscapeOne(text[0]) + Escaped(text[1..])
  }

  /** The loop of the writer's escape. */
  method Escape(text: string) returns (out: string)
    ensures out == Escaped(text)
  {
    out := "";
    var i := 0;
    while i < |text|
      invariant 0 <= i <= |text| && out + Escaped(text[i..]) == Escaped(text)
    {
      assert text[i..][1..] == text[i + 1..];
      assert Escaped(text[i..]) == EscapeOne(text[i]) + Escaped(text[i + 1..]);
      out := out + EscapeOne(text[i]);
      i := i + 1;
    }
  }

  function BeforeQuery(extension: string, entry: string): string {
    "cronymax-webview://" + extension + "/" + WithoutSlashes(WithoutDotSlashes(entry))
  }

  function SurfaceUrl(extension: string, surface: string, id: string, entry: string): string {
    BeforeQuery(extension, entry) + "?surface=" + Escaped(surface) + "&id=" + Escaped(id)
  }

  // ---------------------------------------------------------------- finding separators

  /** An escaped text holds none of the seven characters, and a text that holds none is left as it is. */
  lemma {:induction false} EscapedIsClean(text: string)
    ensures forall i | 0 <= i < |Escaped(text)| :: Escaped(text)[i] !in "?#&= /\\"
    ensures (forall i | 0 <= i < |text| :: text[i] !in "?#&= /\\") ==> Escaped(text) == text
  {
    if text != "" {
      EscapedIsClean(text[1..]);
      assert forall i | 0 <= i < |EscapeOne(text[0])| :: EscapeOne(text[0])[i] !in "?#&= /\\";
      assert forall i | 0 <= i < |text| - 1 :: text[1..][i] == text[i + 1];
      assert text == [text[0]] + text[1..];
    }
  }

  function Repeated(part: string, n: nat): string {
    if n == 0 then "" else part + Repeated(part, n - 1)
  }

  lemma {:induction false} DotSlashesGone(entry: string) returns (n: nat)
    ensures var e := WithoutDotSlashes(entry);
      entry == Repeated("./", n) + e && !(|e| >= 2 && e[..2] == "./")
  {
    if |entry| >= 2 && entry[0] == '.' && entry[1] == '/' {
      var k := DotSlashesGone(entry[2..]);
      n := k + 1;
      assert entry == "./" + entry[2..];
    } else {
      n := 0;
    }
  }

  lemma {:induction false} SlashesGone(entry: string) returns (m: nat)
    ensures var e := WithoutSlashes(entry);
      entry == Repeated("/", m) + e && !(|e| >= 1 && e[0] == '/')
  {
    if |entry| >= 1 && entry[0] == '/' {
      var k := SlashesGone(entry[1..]);
      m := k + 1;
      assert entry == "/" + entry[1..];
    } else {
      m := 0;
    }
  }

  /** What stands before the query that is written: scheme, extension, and the entry without its leading `./`s and the
      slashes behind them. A `./` that follows such a slash stays. */
  lemma WrittenPage(extension: string, surface: string, id: string, entry: string) returns (n: nat, m: nat, rest: string)
    ensures entry == Repeated("./", n) + (Repeated("/", m) + rest)
    ensures rest == "" || rest[0] != '/'
    ensures !(|Repeated("/", m) + rest| >= 2 && (Repeated("/", m) + rest)[..2] == "./")
    ensures var page := "cronymax-webview://" + extension + "/" + rest;
      && |SurfaceUrl(extension, surface, id, entry)| > |page|
      && SurfaceUrl(extension, surface, id, entry)[..|page|] == page
      && SurfaceUrl(extension, surface, id, entry)[|page|] == '?'
  {
    n := DotSlashesGone(entry);
    m := SlashesGone(WithoutDotSlashes(entry));
    rest := WithoutSlashes(WithoutDotSlashes(entry));
    hide Escaped, WithoutDotSlashes, WithoutSlashes, Repeated;
  }

  /** A query of two texts without separators. */
  lemma QueryOfTwo(page: string, first: string, second: string)
    requires '?' !in page
    requires forall i | 0 <= i < |first| :: first[i] !in "#&"
    requires second != "" && forall i | 0 <= i < |second| :: second[i] !in "#&"
    ensures UrlSegments(page + "?" + (first + "&" + second)) == [first, second]
  {
    hide Find;
    var url, query := page + "?" + (first + "&" + second), first + "&" + second;
    FindIs(url, '?', 0, |page|);
    FindNone(url, '#', |page|);
    assert url[|page| + 1..|url|] == query;
    FindIs(query, '&', 0, |first|);
    assert query[..|first|] == first && query[|first| + 1..] == second;
    FindNone(second, '&', 0);
    assert query != "" && second != "";
    assert Segments(second) == [second];
    assert Segments(query) == [first] + Segments(second);
  }

  lemma CleanPart(name: string, text: string)
    requires forall i | 0 <= i < |name| :: name[i] != '#' && name[i] != '&'
    ensures var part := name + Escaped(text);
      (forall i | 0 <= i < |part| :: part[i] !in "#&") && '#' !in part && '&' !in part
  {
    EscapedIsClean(text);
    hide Escaped;
    var part := name + Escaped(text);
    forall i | 0 <= i < |part|
      ensures part[i] != '#' && part[i] != '&'
    {
      if i >= |name| {
        assert part[i] == Escaped(text)[i - |name|];
        assert "?#&= /\\"[1] == '#' && "?#&= /\\"[2] == '&';
      }
    }
  }

  /** The URL's query has exactly the two pairs that were written, when extension and entry hold no '?'. */
  lemma TwoSegments(extension: string, surface: string, id: string, entry: string)
    requires '?' !in BeforeQuery(extension, entry)
    ensures UrlSegments(SurfaceUrl(extension, surface, id, entry)) ==
            ["surface=" + Escaped(surface), "id=" + Escaped(id)]
  {
    hide Find, Escaped, BeforeQuery;
    var before, first, second := BeforeQuery(extension, entry), "surface=" + Escaped(surface), "id=" + Escaped(id);
    CleanPart("surface=", surface);
    CleanPart("id=", id);
    assert "?surface=" == "?" + "surface=" && "&id=" == "&" + "id=";
    assert SurfaceUrl(extension, surface, id, entry) == before + "?" + (first + "&" + second);
    QueryOfTwo(before, first, second);
  }

  lemma PairOf(name: string, value: string, key: string)
    requires '=' !in name
    ensures Assigns(name + "=" + value, key) <==> name == key
    ensures RawValue(name + "=" + value) == value
    ensures !IsBare(name + "=" + value, key)
  {
    var segment := name + "=" + value;
    FindIs(segment, '=', 0, |name|);
    assert segment[..|name|] == name && segment[|name| + 1..] == value;
  }

  /** Both readers take back the decoded form of what was escaped, and agree. */
  lemma BothReadBack(extension: string, surface: string, id: string, entry: string)
    requires '?' !in BeforeQuery(extension, entry)
    ensures var segments := UrlSegments(SurfaceUrl(extension, surface, id, entry));
      FirstValue(segments, "surface") == FirstPair(Parsed(segments), "surface") == Decoded(Escaped(surface), 0) &&
      FirstValue(segments, "id") == FirstPair(Parsed(segments), "id") == Decoded(Escaped(id), 0)
  {
    hide Find, Escaped, Decoded, Assigns, IsBare, Parsed, RawValue, BeforeQuery;
    var segments := ["surface=" + Escaped(surface), "id=" + Escaped(id)];
    TwoSegments(extension, surface, id, entry);
    assert segments[1..] == ["id=" + Escaped(id)];
    assert "surface=" == "surface" + "=" && "id=" == "id" + "=";
    assert "surface"[0] != "id"[0];
    forall key ensures FirstValue(segments, key) == FirstPair(Parsed(segments), key) {
      PairOf("surface", Escaped(surface), key);
      PairOf("id", Escaped(id), key);
      NoBareKeyAgrees(segments, key);
    }
    PairOf("surface", Escaped(surface), "surface");
    PairOf("surface", Escaped(surface), "id");
    PairOf("id", Escaped(id), "id");
  }

  // ---------------------------------------------------------------- when the value survives

  lemma DecodedFrom(raw: string, i: nat)
    requires i <= |raw|
    ensures Decoded(raw, i) == Decoded(raw[i..], 0)
    decreases |raw| - i
  {
    DecodedShift(raw, i, i);
  }

  lemma SameStep(raw: string, k: nat, i: nat)
    requires k <= i <= |raw|
    ensures IsEscape(raw, i) <==> IsEscape(raw[k..], i - k)
    ensures IsEscape(raw, i) ==> i + 3 <= |raw| && raw[k..][i - k + 1] == raw[i + 1] && raw[k..][i - k + 2] == raw[i + 2]
    ensures i < |raw| ==> raw[k..][i - k] == raw[i]
  {
    hide FromHex;
  }

  lemma {:induction false} DecodedShift(raw: string, k: nat, i: nat)
    requires k <= i <= |raw|
    ensures Decoded(raw, i) == Decoded(raw[k..], i - k)
    decreases |raw| - i
  {
    SameStep(raw, k, i);
    hide IsEscape, FromHex;
    if i < |raw| {
      if IsEscape(raw, i) {
        DecodedShift(raw, k, i + 3);
      } else {
        DecodedShift(raw, k, i + 1);
      }
    }
  }

  /** The text spells no escape of its own. */
  predicate EscapeFree(text: string) {
    forall i | 0 <= i < |text| :: !IsEscape(text, i)
  }

  lemma EscapeFreeTail(text: string)
    requires text != ""
    ensures EscapeFree(text) <==> !IsEscape(text, 0) && EscapeFree(text[1..])
  {
    assert forall i | 0 <= i < |text| - 1 :: IsEscape(text[1..], i) <==> IsEscape(text, i + 1);
    assert forall i | 0 < i < |text| :: IsEscape(text, i) <==> IsEscape(text[1..], i - 1);
  }

  /** A hex digit is not escaped, and an escape does not start with one. */
  lemma HexIsPlain()
    ensures forall c | FromHex(c) >= 0 :: EscapeOne(c) == [c]
    ensures forall c | FromHex(c) < 0 :: FromHex(EscapeOne(c)[0]) < 0
  {
  }

  /** The first character of an escaped text is a hex digit just when the text's first one is, and it is that one. */
  lemma HexHead(text: string)
    ensures |Escaped(text)| >= |text|
    ensures text != "" ==> (FromHex(Escaped(text)[0]) >= 0 <==> FromHex(text[0]) >= 0)
    ensures text != "" && FromHex(text[0]) >= 0 ==> Escaped(text) == [text[0]] + Escaped(text[1..])
  {
    hide FromHex;
    HexIsPlain();
    if text != "" {
      HexHead(text[1..]);
    }
  }

  /** Whether a '%' starts an escape is the same before and after escaping. */
  lemma EscapeSeen(text: string)
    requires text != "" && text[0] == '%'
    ensures IsEscape(Escaped(text), 0) <==> IsEscape(text, 0)
    ensures IsEscape(text, 0) ==> Escaped(text) == text[..3] + Escaped(text[3..])
  {
    hide FromHex, Escaped, EscapeOne;
    PercentStays(text);
    HexHead(text[1..]);
    if |text| >= 3 && FromHex(text[1]) >= 0 {
      assert text[1..][1..] == text[2..] && text[2..][1..] == text[3..];
      HexHead(text[2..]);
    } else if |text| == 2 {
      assert text[1..][1..] == "";
      NothingToRead();
    } else if |text| == 1 {
      assert text[1..] == "";
      NothingToRead();
    }
  }

  lemma PercentStays(text: string)
    requires text != "" && text[0] == '%'
    ensures Escaped(text) == "%" + Escaped(text[1..])
  {
  }

  /** An escaped character reads back as itself. */
  lemma EscapeReadsBack(c: char)
    requires EscapeOne(c) != [c]
    ensures var e := EscapeOne(c);
      |e| == 3 && e[0] == '%' && FromHex(e[1]) >= 0 && FromHex(e[2]) >= 0 && FromHex(e[1]) * 16 + FromHex(e[2]) == c as int
  {
  }

  lemma DecodeHead(c: char, rest: string)
    requires c != '%'
    ensures Decoded(EscapeOne(c) + rest, 0) == [c] + Decoded(rest, 0)
  {
    var raw, n := EscapeOne(c) + rest, |EscapeOne(c)|;
    DecodedFrom(raw, n);
    assert raw[n..] == rest;
    if EscapeOne(c) != [c] {
      EscapeReadsBack(c);
    }
    hide FromHex, EscapeOne;
    assert Decoded(raw, 0) == [c] + Decoded(raw, n);
  }

  /** Reading back never lengthens a value, and loses something exactly when the value spells an escape. */
  lemma {:induction false} ReadingBack(text: string)
    ensures EscapeFree(text) ==> Decoded(Escaped(text), 0) == text
    ensures !EscapeFree(text) ==> |Decoded(Escaped(text), 0)| < |text|
    decreases |text|, 1
  {
    hide FromHex, Escaped, Decoded;
    if text != "" {
      EscapeFreeTail(text);
      if text[0] == '%' && IsEscape(text, 0) {
        ShrinksHere(text);
      } else {
        ReadingBack(text[1..]);
        StaysHere(text);
      }
    } else {
      NothingToRead();
    }
  }

  lemma NothingToRead()
    ensures Escaped("") == "" && Decoded(Escaped(""), 0) == ""
  {
  }

  lemma StaysHere(text: string)
    requires text != "" && !IsEscape(text, 0)
    ensures Decoded(Escaped(text), 0) == [text[0]] + Decoded(Escaped(text[1..]), 0)
  {
    if text[0] == '%' {
      EscapeSeen(text);
      PercentStays(text);
      DecodedFrom(Escaped(text), 1);
      assert Escaped(text)[1..] == Escaped(text[1..]);
      hide FromHex, Escaped, IsEscape;
    } else {
      DecodeHead(text[0], Escaped(text[1..]));
      hide FromHex, Decoded;
    }
  }

  lemma {:induction false} ShrinksHere(text: string)
    requires text != "" && IsEscape(text, 0)
    ensures |Decoded(Escaped(text), 0)| < |text|
    decreases |text|, 0
  {
    EscapeSeen(text);
    var tail := Escaped(text[3..]);
    DecodedFrom(Escaped(text), 3);
    assert Escaped(text)[3..] == tail;
    ReadingBack(text[3..]);
  }

  /** When the entry brings no query, surface and id come back unchanged from either reader exactly when they spell no
      escape. */
  lemma PlainSurvives(extension: string, surface: string, id: string, entry: string)
    requires '?' !in BeforeQuery(extension, entry)
    ensures var segments := UrlSegments(SurfaceUrl(extension, surface, id, entry));
      (FirstValue(segments, "id") == id <==> EscapeFree(id)) &&
      (FirstPair(Parsed(segments), "id") == id <==> EscapeFree(id)) &&
      (FirstValue(segments, "surface") == surface <==> EscapeFree(surface)) &&
      (FirstPair(Parsed(segments), "surface") == surface <==> EscapeFree(surface))
  {
    BothReadBack(extension, surface, id, entry);
    ReadingBack(id);
    ReadingBack(surface);
  }

  /** The hexadecimal digits in both cases. */
  function UpperDigit(d: nat): char
    requires d < 16
  {
    "0123456789ABCDEF"[d]
  }

  function LowerDigit(d: nat): char
    requires d < 16
  {
    "0123456789abcdef"[d]
  }

  lemma DigitsRead(d: nat)
    requires d < 16
    ensures FromHex(UpperDigit(d)) == d == FromHex(LowerDigit(d))
  {
    var upper, lower := "0123456789ABCDEF", "0123456789abcdef";
    assert forall i | 0 <= i < 10 :: upper[i] as int == lower[i] as int == '0' as int + i;
    assert forall i | 10 <= i < 16 :: upper[i] as int == 'A' as int + i - 10 && lower[i] as int == 'a' as int + i - 10;
  }

  /** Each of the seven characters is written as '%' and the two upper-case digits of its code, any other as it is. */
  lemma EscapedDigits(c: char)
    ensures EscapeOne(c) ==
      if c in "?#&= /\\" then ['%', UpperDigit(c as int / 16), UpperDigit(c as int % 16)] else [c]
  {
    if c in "?#&= /\\" {
      assert c as int < 0x60;
    }
  }

  lemma OnlyDigitsRead(c: char)
    ensures FromHex(c) >= 0 <==> exists d: nat :: d < 16 && (c == UpperDigit(d) || c == LowerDigit(d))
  {
    if FromHex(c) >= 0 {
      DigitsRead(FromHex(c));
    }
    if d: nat :| d < 16 && (c == UpperDigit(d) || c == LowerDigit(d)) {
      DigitsRead(d);
    }
    hide UpperDigit, LowerDigit;
  }

  /** Every byte written as '%' and two hexadecimal digits, in either case, reads as that byte. */
  lemma ByteReads(hi: nat, lo: nat, h: char, l: char, rest: string)
    requires hi < 16 && lo < 16
    requires h == UpperDigit(hi) || h == LowerDigit(hi)
    requires l == UpperDigit(lo) || l == LowerDigit(lo)
    ensures Decoded(['%', h, l] + rest, 0) == [(16 * hi + lo) as char] + Decoded(rest, 0)
  {
    hide UpperDigit, LowerDigit, FromHex;
    DigitsRead(hi);
    DigitsRead(lo);
    var raw := ['%', h, l] + rest;
    DecodedFrom(raw, 3);
    assert raw[3..] == rest && raw[0] == '%' && raw[1] == h && raw[2] == l;
  }

  /** Everything else reads as it stands: any other character, and a '%' without two such digits behind it. */
  lemma ElseReads(c: char, rest: string)
    requires c != '%' || |rest| < 2 ||
      (forall d: nat | d < 16 :: rest[0] != UpperDigit(d) && rest[0] != LowerDigit(d)) ||
      (forall d: nat | d < 16 :: rest[1] != UpperDigit(d) && rest[1] != LowerDigit(d))
    ensures Decoded([c] + rest, 0) == [c] + Decoded(rest, 0)
  {
    hide UpperDigit, LowerDigit, FromHex;
    if |rest| >= 2 {
      OnlyDigitsRead(rest[0]);
      OnlyDigitsRead(rest[1]);
    }
    var raw := [c] + rest;
    DecodedFrom(raw, 1);
    assert raw[1..] == rest && raw[0] == c;
    assert |rest| >= 2 ==> raw[1] == rest[0] && raw[2] == rest[1];
  }

  /** An id that does not survive. */
  lemma IdLost()
    ensures !EscapeFree("%41") && Decoded(Escaped("%41"), 0) == "A"
  {
    var id := "%41";
    assert IsEscape(id, 0);
    EscapeSeen(id);
    assert Escaped(id[3..]) == "" && Escaped(id) == id;
    assert Decoded(id, 3) == "";
  }

  // ---------------------------------------------------------------- entries with a query of their own

  /** The segments of a text that an '&' closes. */
  function Closed(text: string): seq<string>
    decreases |text|
  {
    match Find(text, '&', 0) case None => [] case Some(amp) => [text[..amp]] + Closed(text[amp + 1..])
  }

  /** What follows the last '&'. */
  function Last(text: string): string
    decreases |text|
  {
    match Find(text, '&', 0) case None => text case Some(amp) => Last(text[amp + 1..])
  }

  /** The segments of a URL whose entry brings the query text `text`: cut off at its '#', or with the surface glued to
      its last segment. */
  function SegmentsAfter(text: string, surface: string, id: string): seq<string> {
    match Find(text, '#', 0)
    case Some(hash) => Segments(text[..hash])
    case None => Closed(text) + [Last(text) + "?surface=" + Escaped(surface), "id=" + Escaped(id)]
  }

  lemma FindFirst(a: string, c: char, b: string)
    ensures c in a ==> Find(a + b, c, 0) == Find(a, c, 0)
  {
    if c in a {
      var k := Find(a, c, 0).value;
      FindIs(a + b, c, 0, k);
    }
  }

  lemma SplitAt(query: string, amp: nat)
    requires Find(query, '&', 0) == Some(amp)
    ensures amp < |query| && Segments(query) == [query[..amp]] + Segments(query[amp + 1..])
  {
    hide Find;
  }

  lemma {:induction false} GluedSegments(text: string, first: string, second: string)
    requires first != "" && '&' !in first && second != "" && '&' !in second
    ensures Segments(text + (first + "&" + second)) == Closed(text) + [Last(text) + first, second]
    decreases |text|
  {
    hide Find, Segments;
    var written := first + "&" + second;
    var query := text + written;
    if '&' in text {
      var amp := Find(text, '&', 0).value;
      FindFirst(text, '&', written);
      SplitAt(query, amp);
      assert query[..amp] == text[..amp] && query[amp + 1..] == text[amp + 1..] + written;
      GluedSegments(text[amp + 1..], first, second);
      hide Last;
      assert Closed(text) == [text[..amp]] + Closed(text[amp + 1..]);
    } else {
      FindNone(text, '&', 0);
      var head := text + first;
      assert query == head + "&" + second;
      FindIs(query, '&', 0, |head|);
      SplitAt(query, |head|);
      assert query[..|head|] == head && query[|head| + 1..] == second;
      OneSegment(second);
    }
  }

  lemma OneSegment(text: string)
    requires text != "" && '&' !in text
    ensures Segments(text) == [text]
  {
    FindNone(text, '&', 0);
    hide Find;
  }

  lemma EntrySegments(extension: string, surface: string, id: string, entry: string, page: string, text: string)
    requires BeforeQuery(extension, entry) == page + "?" + text && '?' !in page
    ensures UrlSegments(SurfaceUrl(extension, surface, id, entry)) == SegmentsAfter(text, surface, id)
  {
    hide Find, Escaped, BeforeQuery, Segments, Closed, Last;
    var first, second := "?surface=" + Escaped(surface), "id=" + Escaped(id);
    var written := first + "&" + second;
    CleanPart("?surface=", surface);
    CleanPart("id=", id);
    assert "&id=" == "&" + "id=";
    assert SurfaceUrl(extension, surface, id, entry) == page + "?" + (text + written);
    if '#' in text {
      CutSegments(page, text, written);
    } else {
      FindNone(text, '#', 0);
      UncutSegments(page, text + written);
      GluedSegments(text, first, second);
      assert Last(text) + first == Last(text) + "?surface=" + Escaped(surface);
    }
  }

  /** The query ends at the '#' the text brings. */
  lemma CutSegments(page: string, text: string, written: string)
    requires '?' !in page && '#' in text
    ensures UrlSegments(page + "?" + (text + written)) == Segments(text[..Find(text, '#', 0).value])
  {
    hide Find, Segments;
    var url, hash := page + "?" + (text + written), Find(text, '#', 0).value;
    FindIs(url, '?', 0, |page|);
    FindIs(url, '#', |page|, |page| + 1 + hash);
    assert url[|page| + 1..|page| + 1 + hash] == text[..hash];
    HashCut(url, |page|, text, hash);
  }

  lemma UncutSegments(page: string, query: string)
    requires '?' !in page && '#' !in query && query != ""
    ensures UrlSegments(page + "?" + query) == Segments(query)
  {
    hide Find, Segments;
    var url := page + "?" + query;
    FindIs(url, '?', 0, |page|);
    FindNone(url, '#', |page|);
    assert url[|page| + 1..|url|] == query;
  }

  /** A query cut off right behind its '?' has no segments either way. */
  lemma HashCut(url: string, q: nat, text: string, hash: nat)
    requires Find(url, '?', 0) == Some(q) && Find(url, '#', q) == Some(q + 1 + hash)
    requires hash <= |text| && q + 1 + hash <= |url| && url[q + 1..q + 1 + hash] == text[..hash]
    ensures UrlSegments(url) == Segments(text[..hash])
  {
    hide Find, Segments;
  }

  // ---------------------------------------------------------------- what is read from them

  ghost predicate Assigned(segments: seq<string>, key: string) {
    exists i | 0 <= i < |segments| :: Assigns(segments[i], key)
  }

  /** Assigned, or spelled bare. */
  ghost predicate Mentioned(segments: seq<string>, key: string) {
    exists i | 0 <= i < |segments| :: Assigns(segments[i], key) || IsBare(segments[i], key)
  }

  lemma {:induction false} FirstOfBoth(a: seq<string>, b: seq<string>, key: string)
    ensures FirstValue(a + b, key) == FirstValue(if Assigned(a, key) then a else b, key)
    ensures FirstPair(Parsed(a + b), key) == FirstPair(Parsed(if Mentioned(a, key) then a else b), key)
  {
    hide Assigns, IsBare, Decoded, RawValue, Find;
    if a == [] {
      assert a + b == b;
    } else {
      var rest := a[1..];
      assert (a + b)[0] == a[0] && (a + b)[1..] == rest + b && a == [a[0]] + rest;
      FirstOfBoth(rest, b, key);
      HeadSegment(a[0], rest + b, key);
      HeadSegment(a[0], rest, key);
      HeadMentions(a[0], rest, key);
      PairMentions(a[0], key);
      hide FirstValue, Parsed, ParsedPair, Assigned, Mentioned;
      if a[0] != "" {
        PairFirst(ParsedPair(a[0]), Parsed(rest + b), key);
        PairFirst(ParsedPair(a[0]), Parsed(rest), key);
      }
      assert [] + Parsed(rest + b) == Parsed(rest + b) && [] + Parsed(rest) == Parsed(rest);
    }
  }

  lemma HeadMentions(head: string, rest: seq<string>, key: string)
    ensures Assigned([head] + rest, key) <==> Assigns(head, key) || Assigned(rest, key)
    ensures Mentioned([head] + rest, key) <==> Assigns(head, key) || IsBare(head, key) || Mentioned(rest, key)
  {
    hide Assigns, IsBare;
    var all := [head] + rest;
    assert all[0] == head && forall i | 0 <= i < |rest| :: all[i + 1] == rest[i];
    assert forall i | 0 < i < |all| :: all[i] == rest[i - 1];
  }

  /** The parsed pair has the key just when the segment assigns it or spells it bare. */
  lemma PairMentions(segment: string, key: string)
    ensures segment != "" ==> (ParsedPair(segment).0 == key <==> Assigns(segment, key) || IsBare(segment, key))
    ensures segment == "" ==> !Assigns(segment, key) && !IsBare(segment, key)
  {
    hide Decoded;
  }

  lemma PairFirst(pair: (string, string), rest: seq<(string, string)>, key: string)
    ensures FirstPair([pair] + rest, key) == if pair.0 == key then pair.1 else FirstPair(rest, key)
  {
    assert ([pair] + rest)[1..] == rest;
  }

  /** What the glued segment assigns: whatever the entry's last segment did, with the surface's text behind it. */
  lemma GluedAssigns(last: string, tail: string, key: string)
    requires '?' !in key
    ensures var glued := last + "?surface=" + tail;
      && (Assigns(glued, key) <==> Assigns(last, key))
      && !IsBare(glued, key)
      && (Assigns(last, key) ==> RawValue(glued) == RawValue(last) + "?surface=" + tail)
  {
    hide Find;
    var glued := last + "?surface=" + tail;
    assert "?surface="[8] == '=' && "?surface="[0] == '?';
    if '=' in last {
      var eq := Find(last, '=', 0).value;
      FindIs(glued, '=', 0, eq);
      assert glued[..eq] == last[..eq] && glued[eq + 1..] == last[eq + 1..] + "?surface=" + tail;
    } else {
      FindNone(last, '=', 0);
      FindIs(glued, '=', 0, |last| + 8);
      assert glued[..|last| + 8][|last|] == '?';
    }
  }

  /** What either reader finds of `key` behind the segments the entry closes: the last one's value with the written
      surface glued on, the written id, or nothing. */
  function BehindEntry(text: string, surface: string, id: string, key: string): string {
    if Assigns(Last(text), key) then Decoded(RawValue(Last(text)) + "?surface=" + Escaped(surface), 0)
    else if key == "id" then Decoded(Escaped(id), 0)
    else ""
  }

  /** What both readers return for surface and id on every URL whose entry holds a '?': the entry's own assignment
      before any '#' comes first; without a '#' the written surface is lost and the written id remains. */
  lemma EntryQueryReads(extension: string, surface: string, id: string, entry: string, page: string, text: string, key: string)
    requires BeforeQuery(extension, entry) == page + "?" + text && '?' !in page
    requires key == "surface" || key == "id"
    ensures var segments := UrlSegments(SurfaceUrl(extension, surface, id, entry));
      match Find(text, '#', 0)
      case Some(hash) =>
        && FirstValue(segments, key) == FirstValue(Segments(text[..hash]), key)
        && FirstPair(Parsed(segments), key) == FirstPair(Parsed(Segments(text[..hash])), key)
      case None =>
        && FirstValue(segments, key) ==
           (if Assigned(Closed(text), key) then FirstValue(Closed(text), key) else BehindEntry(text, surface, id, key))
        && FirstPair(Parsed(segments), key) ==
           (if Mentioned(Closed(text), key) then FirstPair(Parsed(Closed(text)), key)
            else BehindEntry(text, surface, id, key))
  {
    EntrySegments(extension, surface, id, entry, page, text);
    if Find(text, '#', 0).None? {
      hide Find, Segments, Escaped, Closed, Last, BeforeQuery, Decoded, Assigned, Mentioned;
      var glued, written := Last(text) + "?surface=" + Escaped(surface), "id=" + Escaped(id);
      FirstOfBoth(Closed(text), [glued, written], key);
      ReadsBehind(Last(text), Escaped(surface), Escaped(id), key);
    }
  }

  lemma ReadsBehind(last: string, surface: string, id: string, key: string)
    requires key == "surface" || key == "id"
    ensures var tail := [last + "?surface=" + surface, "id=" + id];
      FirstValue(tail, key) == FirstPair(Parsed(tail), key) ==
      if Assigns(last, key) then Decoded(RawValue(last) + "?surface=" + surface, 0)
      else if key == "id" then Decoded(id, 0) else ""
  {
    hide Find, Decoded, Assigns, IsBare, RawValue, Parsed;
    var glued, written := last + "?surface=" + surface, "id=" + id;
    assert '?' !in "surface" && '?' !in "id" && |"surface"| == 7 && |"id"| == 2;
    GluedAssigns(last, surface, key);
    assert "id=" == "id" + "=";
    PairOf("id", id, key);
    NoBareKeyAgrees([glued, written], key);
    assert [glued, written][1..] == [written] && [written][1..] == [];
    assert FirstValue([written], key) == if key == "id" then Decoded(id, 0) else "";
  }

  // ---------------------------------------------------------------- when the surface comes back from them

  lemma {:induction false} PlainPrefix(plain: string, rest: string)
    requires '%' !in plain
    ensures Decoded(plain + rest, 0) == plain + Decoded(rest, 0)
  {
    if plain == "" {
      assert plain + rest == rest;
    } else {
      PlainPrefix(plain[1..], rest);
      PlainHead(plain[0], plain[1..] + rest);
      hide Decoded;
      assert plain + rest == [plain[0]] + (plain[1..] + rest);
      assert plain == [plain[0]] + plain[1..];
    }
  }

  lemma PlainHead(c: char, rest: string)
    requires c != '%'
    ensures Decoded([c] + rest, 0) == [c] + Decoded(rest, 0)
  {
    hide FromHex;
    var text := [c] + rest;
    DecodedFrom(text, 1);
    assert text[1..] == rest;
  }

  /** Reading the first unit of a text, an escape or a character. */
  lemma FirstUnit(text: string)
    requires text != ""
    ensures Decoded(text, 0) ==
      if IsEscape(text, 0) then [(FromHex(text[1]) * 16 + FromHex(text[2])) as char] + Decoded(text[3..], 0)
      else [text[0]] + Decoded(text[1..], 0)
  {
    hide FromHex;
    DecodedFrom(text, 1);
    if IsEscape(text, 0) {
      DecodedFrom(text, 3);
    }
  }

  /** No escape reaches across a question mark. */
  lemma {:induction false} DecodedAround(a: string, b: string)
    ensures Decoded(a + "?" + b, 0) == Decoded(a, 0) + "?" + Decoded(b, 0)
    decreases |a|
  {
    hide FromHex, Decoded;
    var text := a + "?" + b;
    if a == "" {
      assert text == "?" + b;
      PlainPrefix("?", b);
      EmptyDecodes();
    } else {
      SameEscape(a, b);
      FirstUnit(text);
      FirstUnit(a);
      var n := if IsEscape(a, 0) then 3 else 1;
      assert text[n..] == a[n..] + "?" + b;
      DecodedAround(a[n..], b);
    }
  }

  lemma EmptyDecodes()
    ensures Decoded("", 0) == ""
  {
  }

  lemma SameEscape(a: string, b: string)
    requires a != ""
    ensures var text := a + "?" + b;
      (IsEscape(text, 0) <==> IsEscape(a, 0)) && (IsEscape(a, 0) ==> text[1] == a[1] && text[2] == a[2]) && text[0] == a[0]
  {
    assert FromHex('?') == -1;
    hide FromHex;
  }

  /** Reading back an escaped text decodes the text itself. */
  lemma {:induction false} EscapedDecodes(text: string)
    ensures Decoded(Escaped(text), 0) == Decoded(text, 0)
  {
    hide FromHex, Escaped;
    if text == "" {
      NothingToRead();
    } else if IsEscape(text, 0) {
      EscapeSeen(text);
      var tail := Escaped(text[3..]);
      DecodedFrom(Escaped(text), 3);
      DecodedFrom(text, 3);
      assert Escaped(text)[3..] == tail;
      EscapedDecodes(text[3..]);
    } else {
      StaysHere(text);
      DecodedFrom(text, 1);
      EscapedDecodes(text[1..]);
    }
  }

  lemma DecodedShrinks(text: string, i: nat)
    requires i <= |text|
    ensures |Decoded(text, i)| <= |text| - i
    decreases |text| - i
  {
    hide FromHex;
    if i < |text| {
      DecodedShrinks(text, if IsEscape(text, i) then i + 3 else i + 1);
    }
  }

  lemma SurfaceGlued(raw: string, surface: string)
    ensures Decoded(raw + "?surface=" + Escaped(surface), 0) == Decoded(raw, 0) + "?surface=" + Decoded(surface, 0)
  {
    hide Escaped, Decoded;
    var tail := "surface=" + Escaped(surface);
    assert "?surface=" == "?" + "surface=";
    assert raw + "?surface=" + Escaped(surface) == raw + "?" + tail;
    DecodedAround(raw, tail);
    PlainPrefix("surface=", Escaped(surface));
    EscapedDecodes(surface);
    assert Decoded(raw, 0) + "?" + ("surface=" + Decoded(surface, 0)) == Decoded(raw, 0) + "?surface=" + Decoded(surface, 0);
  }

  /** A text that ends in its own decoding behind the glue would do so at every depth. */
  lemma {:induction false} NeverItself(text: string, front: string)
    ensures text != front + "?surface=" + Decoded(text, 0)
    decreases |text|
  {
    var d := Decoded(text, 0);
    if text == front + "?surface=" + d {
      GluedDecodes(front, d);
      hide Decoded;
      NeverItself(d, Decoded(front, 0));
    }
  }

  lemma GluedDecodes(front: string, d: string)
    ensures Decoded(front + "?surface=" + d, 0) == Decoded(front, 0) + "?surface=" + Decoded(d, 0)
  {
    hide Decoded;
    assert "?surface=" == "?" + "surface=";
    assert front + "?surface=" + d == front + "?" + ("surface=" + d);
    DecodedAround(front, "surface=" + d);
    PlainPrefix("surface=", d);
    assert Decoded(front, 0) + "?" + ("surface=" + Decoded(d, 0)) == Decoded(front, 0) + "?surface=" + Decoded(d, 0);
  }

  lemma NotThere(segments: seq<string>, key: string)
    ensures !Assigned(segments, key) ==> FirstValue(segments, key) == ""
    ensures !Mentioned(segments, key) ==> FirstPair(Parsed(segments), key) == ""
  {
    FirstOfBoth(segments, [], key);
    assert segments + [] == segments;
  }

  /** The segments an entry's query text brings whole: up to its '#', or up to its last '&'. */
  function Own(text: string): seq<string> {
    match Find(text, '#', 0) case Some(hash) => Segments(text[..hash]) case None => Closed(text)
  }

  /** What the surface must be to come back when the entry's own query does not give it: the written one never does. */
  predicate SurfaceBehind(text: string, surface: string) {
    surface == "" && ('#' in text || !Assigns(Last(text), "surface"))
  }

  /** What the id must be to come back when the entry's own query does not give it: nothing behind a '#'; the value the
      entry's last segment begins, with the glued surface; otherwise free of escapes. */
  ghost predicate IdBehind(text: string, surface: string, id: string) {
    if '#' in text then id == ""
    else if Assigns(Last(text), "id") then
      Decoded(RawValue(Last(text)), 0) + "?surface=" + Decoded(surface, 0) == id
    else EscapeFree(id)
  }

  /** With a '?' in the entry the surface comes back exactly when the entry's own query gives it, or gives nothing and
      there was none. */
  lemma SurfaceFromEntry(extension: string, surface: string, id: string, entry: string, page: string, text: string)
    requires BeforeQuery(extension, entry) == page + "?" + text && '?' !in page
    ensures var segments := UrlSegments(SurfaceUrl(extension, surface, id, entry));
      && (FirstValue(segments, "surface") == surface <==>
            if Assigned(Own(text), "surface") then FirstValue(Own(text), "surface") == surface
            else SurfaceBehind(text, surface))
      && (FirstPair(Parsed(segments), "surface") == surface <==>
            if Mentioned(Own(text), "surface") then FirstPair(Parsed(Own(text)), "surface") == surface
            else SurfaceBehind(text, surface))
  {
    EntryQueryReads(extension, surface, id, entry, page, text, "surface");
    NotThere(Own(text), "surface");
    hide Segments, Closed, Last, BeforeQuery, Escaped, Decoded, Assigned, Mentioned, Assigns, FirstValue, FirstPair, Parsed;
    if Find(text, '#', 0).None? {
      assert |"id"| == 2 && |"surface"| == 7;
      SurfaceGlued(RawValue(Last(text)), surface);
      NeverItself(surface, Decoded(RawValue(Last(text)), 0));
    }
  }

  /** With a '?' in the entry the id comes back exactly when the entry's own query gives it, or gives none and what
      stands behind it does. */
  lemma IdFromEntry(extension: string, surface: string, id: string, entry: string, page: string, text: string)
    requires BeforeQuery(extension, entry) == page + "?" + text && '?' !in page
    ensures var segments := UrlSegments(SurfaceUrl(extension, surface, id, entry));
      && (FirstValue(segments, "id") == id <==>
            if Assigned(Own(text), "id") then FirstValue(Own(text), "id") == id else IdBehind(text, surface, id))
      && (FirstPair(Parsed(segments), "id") == id <==>
            if Mentioned(Own(text), "id") then FirstPair(Parsed(Own(text)), "id") == id
            else IdBehind(text, surface, id))
  {
    EntryQueryReads(extension, surface, id, entry, page, text, "id");
    NotThere(Own(text), "id");
    ReadingBack(id);
    hide Segments, Closed, Last, BeforeQuery, Escaped, Decoded, Assigned, Mentioned, Assigns, FirstValue, FirstPair, Parsed;
    hide EscapeFree;
    if Find(text, '#', 0).None? {
      SurfaceGlued(RawValue(Last(text)), surface);
    }
  }

  /** For every URL: when surface and id come back unchanged from either reader. */
  lemma IdSurvives(extension: string, surface: string, id: string, entry: string)
    ensures var segments, before := UrlSegments(SurfaceUrl(extension, surface, id, entry)), BeforeQuery(extension, entry);
      match Find(before, '?', 0)
      case None =>
        && (FirstValue(segments, "id") == id <==> EscapeFree(id))
        && (FirstPair(Parsed(segments), "id") == id <==> EscapeFree(id))
        && (FirstValue(segments, "surface") == surface <==> EscapeFree(surface))
        && (FirstPair(Parsed(segments), "surface") == surface <==> EscapeFree(surface))
      case Some(q) =>
        var text := before[q + 1..];
        && (FirstValue(segments, "id") == id <==>
              if Assigned(Own(text), "id") then FirstValue(Own(text), "id") == id else IdBehind(text, surface, id))
        && (FirstPair(Parsed(segments), "id") == id <==>
              if Mentioned(Own(text), "id") then FirstPair(Parsed(Own(text)), "id") == id
              else IdBehind(text, surface, id))
        && (FirstValue(segments, "surface") == surface <==>
              if Assigned(Own(text), "surface") then FirstValue(Own(text), "surface") == surface
              else SurfaceBehind(text, surface))
        && (FirstPair(Parsed(segments), "surface") == surface <==>
              if Mentioned(Own(text), "surface") then FirstPair(Parsed(Own(text)), "surface") == surface
              else SurfaceBehind(text, surface))
  {
    hide BeforeQuery, SurfaceUrl, UrlSegments, FirstValue, FirstPair, Parsed, Assigned, Mentioned, Own, EscapeFree;
    hide IdBehind, SurfaceBehind, Find;
    var before := BeforeQuery(extension, entry);
    match Find(before, '?', 0)
    case None =>
      PlainSurvives(extension, surface, id, entry);
    case Some(q) =>
      assert before == before[..q] + "?" + before[q + 1..];
      IdFromEntry(extension, surface, id, entry, before[..q], before[q + 1..]);
      SurfaceFromEntry(extension, surface, id, entry, before[..q], before[q + 1..]);
  }
}

/** The Markdown pass that puts a block marker above every top-level block that has none. */
module BlockIds {
  import UuidV7

  // ---------------------------------------------------------------- lines

  function SplitSpec(content: string): (lines: seq<string>)
    ensures lines != []
  {
    if content == "" then [""]
    else
      var rest := SplitSpec(content[..|content| - 1]);
      var c := content[|content| - 1];
      if c == '\n' then rest + [""] else rest[..|rest| - 1] + [rest[|rest| - 1] + [c]]
  }

  function JoinSpec(lines: seq<string>): string {
    if lines == [] then ""
    else if |lines| == 1 then lines[0]
    else JoinSpec(lines[..|lines| - 1]) + "\n" + lines[|lines| - 1]
  }

  method SplitLines(content: string) returns (lines: seq<string>)
    ensures lines == SplitSpec(content)
  {
    lines := [];
    var cur, i := "", 0;
    while i < |content|
      invariant 0 <= i <= |content|
      invariant lines + [cur] == SplitSpec(content[..i])
    {
      var c := content[i];
      assert content[..i + 1][..i] == content[..i];
      ghost var before := lines + [cur];
      assert before[..|before| - 1] == lines;
      if c == '\n' {
        lines := lines + [cur];
        cur := "";
      } else {
        cur := cur + [c];
      }
      i := i + 1;
    }
    assert content[..i] == content;
    lines := lines + [cur];
  }

  method JoinLines(lines: seq<string>) returns (content: string)
    ensures content == JoinSpec(lines)
  {
    content := "";
    var i := 0;
    while i < |lines|
      invariant 0 <= i <= |lines|
      invariant content == JoinSpec(lines[..i])
    {
      assert lines[..i + 1][..i] == lines[..i];
      if i > 0 {
        content := content + "\n";
      }
      content := content + lines[i];
      i := i + 1;
    }
    assert lines[..i] == lines;
  }

  ghost predicate NoNewline(line: string) {
    forall i | 0 <= i < |line| :: line[i] != '\n'
  }

  ghost predicate AllLines(lines: seq<string>) {
    forall i | 0 <= i < |lines| :: NoNewline(lines[i])
  }

  /** The lines of a text that goes on in its last line. */
  function Extended(lines: seq<string>, line: string): seq<string>
    requires lines != []
  {
    lines[..|lines| - 1] + [lines[|lines| - 1] + line]
  }

  lemma ExtendedTwice(lines: seq<string>, line: string, c: char)
    requires lines != []
    ensures Extended(lines, line) != [] && Extended(Extended(lines, line), [c]) == Extended(lines, line + [c])
  {
    var once := Extended(lines, line);
    assert once[..|once| - 1] == lines[..|lines| - 1];
    assert lines[|lines| - 1] + line + [c] == lines[|lines| - 1] + (line + [c]);
  }

  lemma SplitChar(content: string, c: char)
    requires c != '\n'
    ensures SplitSpec(content + [c]) == Extended(SplitSpec(content), [c])
  {
    var s := content + [c];
    assert s[..|s| - 1] == content && s[|s| - 1] == c;
  }

  lemma JoinExtended(lines: seq<string>, c: char)
    requires lines != []
    ensures JoinSpec(Extended(lines, [c])) == JoinSpec(lines) + [c]
  {
    var more := Extended(lines, [c]);
    assert more[..|more| - 1] == lines[..|lines| - 1];
  }

  lemma JoinEmptyLine(lines: seq<string>)
    requires lines != []
    ensures JoinSpec(lines + [""]) == JoinSpec(lines) + "\n"
  {
    assert (lines + [""])[..|lines|] == lines;
    assert JoinSpec(lines) + "\n" + "" == JoinSpec(lines) + "\n";
  }

  /** Splitting and joining are inverse both ways: joining loses nothing, and splitting a join of real lines
      finds them again. */
  lemma {:induction false} JoinAfterSplit(content: string)
    ensures JoinSpec(SplitSpec(content)) == content && AllLines(SplitSpec(content))
  {
    SplitIsLines(content);
    SplitEmpty();
    hide SplitSpec, JoinSpec, AllLines, Extended;
    if content == "" {
      JoinOne("");
    } else {
      var before, c := content[..|content| - 1], content[|content| - 1];
      var rest := SplitSpec(before);
      JoinAfterSplit(before);
      assert content == before + [c];
      if c == '\n' {
        JoinEmptyLine(rest);
        SplitNewline(before);
      } else {
        SplitChar(before, c);
        JoinExtended(rest, c);
      }
    }
  }

  lemma JoinOne(line: string)
    ensures JoinSpec([line]) == line
  {
  }

  lemma {:induction false} SplitIsLines(content: string)
    ensures AllLines(SplitSpec(content))
  {
    if content != "" {
      SplitIsLines(content[..|content| - 1]);
    }
  }

  lemma {:induction false} SplitAppend(content: string, line: string)
    requires NoNewline(line)
    ensures SplitSpec(content + line) == Extended(SplitSpec(content), line)
  {
    if line == "" {
      var rest := SplitSpec(content);
      hide SplitSpec;
      assert content + line == content && rest[|rest| - 1] + line == rest[|rest| - 1];
      assert Extended(rest, line) == rest;
    } else {
      hide SplitSpec, Extended;
      var n := |line| - 1;
      SplitAppend(content, line[..n]);
      assert line == line[..n] + [line[n]];
      assert content + line == content + line[..n] + [line[n]];
      SplitChar(content + line[..n], line[n]);
      ExtendedTwice(SplitSpec(content), line[..n], line[n]);
    }
  }

  lemma SplitNewline(content: string)
    ensures SplitSpec(content + "\n") == SplitSpec(content) + [""]
  {
    var s := content + "\n";
    assert s[..|s| - 1] == content && s[|s| - 1] == '\n';
  }

  lemma {:induction false} SplitAfterJoin(lines: seq<string>)
    requires lines != [] && AllLines(lines)
    ensures SplitSpec(JoinSpec(lines)) == lines
  {
    hide SplitSpec;
    var n := |lines| - 1;
    if n == 0 {
      assert SplitSpec("") == [""] by {
        SplitEmpty();
      }
      SplitAppend("", lines[0]);
      assert "" + lines[0] == lines[0];
    } else {
      SplitAfterJoin(lines[..n]);
      var s := JoinSpec(lines[..n]) + "\n";
      SplitNewline(JoinSpec(lines[..n]));
      SplitAppend(s, lines[n]);
      assert SplitSpec(s)[..n] == lines[..n] && "" + lines[n] == lines[n];
    }
  }

  lemma SplitEmpty()
    ensures SplitSpec("") == [""]
  {
  }

  // ---------------------------------------------------------------- markers

  predicate IsBlank(line: string) {
    forall i | 0 <= i < |line| :: line[i] in {' ', '\t', '\r'}
  }

  /** A piece of the marker pattern: a fixed text, or at least `least` characters of a class. */
  datatype Piece = Literal(text: string) | Many(chars: set<char>, least: nat)

  const BLANKS: set<char> := {' ', '\t'}
  const SPACES: set<char> := {' ', '\t', '\n', '\r', '\U{000B}', '\U{000C}'}
  const ID_CHARS: set<char> := (set c | c in "0123456789abcdefABCDEF-")

  /** ^[ \t]*<!--\s*block:\s*([0-9a-fA-F-]{8,})\s*-->\s*$ */
  const MARKER: seq<Piece> := [
    Many(BLANKS, 0), Literal("<!--"), Many(SPACES, 0), Literal("block:"), Many(SPACES, 0),
    Many(ID_CHARS, 8), Many(SPACES, 0), Literal("-->"), Many(SPACES, 0)]

  predicate MatchesPiece(p: Piece, s: string) {
    match p
    case Literal(text) => s == text
    case Many(chars, least) => |s| >= least && forall i | 0 <= i < |s| :: s[i] in chars
  }

  /** A full regular-expression match: some way to cut the text gives each piece its share. */
  predicate Matches(pattern: seq<Piece>, s: string)
    decreases |pattern|
  {
    if pattern == [] then s == ""
    else exists k | 0 <= k <= |s| :: MatchesPiece(pattern[0], s[..k]) && Matches(pattern[1..], s[k..])
  }

  predicate IsMarker(line: string) {
    Matches(MARKER, line)
  }

  function MarkerLine(id: string): string {
    "<!-- block: " + id + " -->"
  }

  /** The pattern from piece k on matches a text that starts with a share for piece k. */
  lemma MatchFrom(k: nat, head: string, tail: string)
    requires k < |MARKER| && MatchesPiece(MARKER[k], head) && Matches(MARKER[k + 1..], tail)
    ensures Matches(MARKER[k..], head + tail)
  {
    hide MARKER;
    var pattern, s, n := MARKER[k..], head + tail, |head|;
    assert pattern[0] == MARKER[k] && pattern[1..] == MARKER[k + 1..];
    assert s[..n] == head && s[n..] == tail;
  }

  /** The shares of the pieces in a written marker. */
  lemma Shares(id: string)
    requires UuidV7.IsUuidText(id)
    ensures |MARKER| == 9
    ensures MatchesPiece(MARKER[0], "") && MatchesPiece(MARKER[1], "<!--") && MatchesPiece(MARKER[2], " ")
    ensures MatchesPiece(MARKER[3], "block:") && MatchesPiece(MARKER[4], " ") && MatchesPiece(MARKER[5], id)
    ensures MatchesPiece(MARKER[6], " ") && MatchesPiece(MARKER[7], "-->") && MatchesPiece(MARKER[8], "")
  {
    forall i | 0 <= i < |id|
      ensures id[i] in ID_CHARS
    {
      UuidChars(id[i]);
    }
    hide ID_CHARS;
  }

  /** The line written for a generated id is a marker. */
  lemma GeneratedMatches(id: string)
    requires UuidV7.IsUuidText(id)
    ensures IsMarker(MarkerLine(id))
  {
    hide Matches, MatchesPiece, MARKER, UuidV7.IsUuidText;
    Shares(id);
    EmptyMatches();
    assert "" + "" == "" && "-->" + "" == "-->" && " " + "-->" == " -->";
    MatchFrom(8, "", "");
    MatchFrom(7, "-->", "");
    MatchFrom(6, " ", "-->");
    MatchFrom(5, id, " -->");
    var t5 := id + " -->";
    MatchFrom(4, " ", t5);
    MatchFrom(3, "block:", " " + t5);
    var t3 := "block:" + (" " + t5);
    MatchFrom(2, " ", t3);
    MatchFrom(1, "<!--", " " + t3);
    MatchFrom(0, "", "<!--" + (" " + t3));
    assert MARKER[0..] == MARKER;
    assert MarkerLine(id) == "" + ("<!--" + (" " + t3));
  }

  /** It is also not blank, and one line. */
  lemma GeneratedIsMarker(id: string)
    requires UuidV7.IsUuidText(id)
    ensures IsMarker(MarkerLine(id)) && !IsBlank(MarkerLine(id)) && NoNewline(MarkerLine(id))
  {
    hide IsMarker;
    GeneratedMatches(id);
    var line := MarkerLine(id);
    assert line[0] == '<';
    forall i | 0 <= i < |line|
      ensures line[i] != '\n'
    {
      if 12 <= i < 12 + |id| {
        assert line[i] == id[i - 12];
        UuidChars(id[i - 12]);
      }
    }
  }

  lemma EmptyMatches()
    ensures Matches(MARKER[|MARKER|..], "") && |MARKER| == 9
  {
  }

  lemma UuidChars(c: char)
    requires UuidV7.IsDigit(c) || c == '-'
    ensures c in ID_CHARS && c != '\n'
  {
    var chars := "0123456789abcdefABCDEF-";
    assert forall i | 0 <= i < 10 :: chars[i] as int == '0' as int + i;
    assert forall i | 10 <= i < 16 :: chars[i] as int == 'a' as int + i - 10;
    assert chars[22] == '-';
    if '0' <= c <= '9' {
      assert chars[c as int - '0' as int] == c;
    } else if c != '-' {
      assert chars[c as int - 'a' as int + 10] == c;
    }
  }

  /** A line is blank when it holds nothing but spaces, tabs and carriage returns. */
  lemma BlankLines(a: string, c: char, b: string)
    ensures IsBlank("") && (IsBlank([c]) <==> c == ' ' || c == '\t' || c == '\r')
    ensures IsBlank(a + b) <==> IsBlank(a) && IsBlank(b)
  {
    assert [c][0] == c;
    if IsBlank(a + b) {
      assert forall i | 0 <= i < |a| :: a[i] == (a + b)[i];
      assert forall i | 0 <= i < |b| :: b[i] == (a + b)[|a| + i];
    }
  }

  predicate IsSpace(c: char) {
    c == ' ' || '\t' <= c <= '\r'
  }

  predicate IsIdChar(c: char) {
    '0' <= c <= '9' || 'a' <= c <= 'f' || 'A' <= c <= 'F' || c == '-'
  }

  /** A marker written out: blanks, a comment that holds the word `block:` and an id, and anything blank behind it. */
  ghost predicate IsComment(indent: string, s1: string, s2: string, id: string, s3: string, s4: string) {
    && (forall i | 0 <= i < |indent| :: indent[i] == ' ' || indent[i] == '\t')
    && (forall i | 0 <= i < |s1| :: IsSpace(s1[i])) && (forall i | 0 <= i < |s2| :: IsSpace(s2[i]))
    && (forall i | 0 <= i < |s3| :: IsSpace(s3[i])) && (forall i | 0 <= i < |s4| :: IsSpace(s4[i]))
    && |id| >= 8 && (forall i | 0 <= i < |id| :: IsIdChar(id[i]))
  }

  function Comment(indent: string, s1: string, s2: string, id: string, s3: string, s4: string): string {
    indent + ("<!--" + (s1 + ("block:" + (s2 + (id + (s3 + ("-->" + s4)))))))
  }

  lemma IdChars(c: char)
    ensures c in ID_CHARS <==> IsIdChar(c)
    ensures c in SPACES <==> IsSpace(c)
    ensures c in BLANKS <==> c == ' ' || c == '\t'
  {
    if c in ID_CHARS {
      ListedIsIdChar(c);
    }
    if IsIdChar(c) {
      IdCharIsListed(c);
    }
    hide ID_CHARS, IsIdChar;
  }

  lemma ListedIsIdChar(c: char)
    requires c in "0123456789abcdefABCDEF-"
    ensures IsIdChar(c)
  {
    var chars := "0123456789abcdefABCDEF-";
    assert forall i | 0 <= i < 10 :: '0' <= chars[i] <= '9';
    assert forall i | 10 <= i < 16 :: 'a' <= chars[i] <= 'f';
    assert forall i | 16 <= i < 22 :: 'A' <= chars[i] <= 'F';
    assert chars[22] == '-';
  }

  lemma IdCharIsListed(c: char)
    requires IsIdChar(c)
    ensures c in "0123456789abcdefABCDEF-"
  {
    var chars := "0123456789abcdefABCDEF-";
    assert forall i | 0 <= i < 10 :: chars[i] as int == '0' as int + i;
    assert forall i | 10 <= i < 16 :: chars[i] as int == 'a' as int + i - 10;
    assert forall i | 16 <= i < 22 :: chars[i] as int == 'A' as int + i - 16;
    var k := if c == '-' then 22
             else if '0' <= c <= '9' then c as int - '0' as int
             else if 'a' <= c <= 'f' then c as int - 'a' as int + 10
             else c as int - 'A' as int + 16;
    assert chars[k] == c;
  }

  /** The pieces of the pattern and the parts of a written-out marker ask the same of a text. */
  lemma Pieces(indent: string, s1: string, s2: string, id: string, s3: string, s4: string)
    ensures |MARKER| == 9
    ensures IsComment(indent, s1, s2, id, s3, s4) <==>
      MatchesPiece(MARKER[0], indent) && MatchesPiece(MARKER[2], s1) && MatchesPiece(MARKER[4], s2) &&
      MatchesPiece(MARKER[5], id) && MatchesPiece(MARKER[6], s3) && MatchesPiece(MARKER[8], s4)
    ensures forall t :: MatchesPiece(MARKER[1], t) <==> t == "<!--"
    ensures forall t :: MatchesPiece(MARKER[3], t) <==> t == "block:"
    ensures forall t :: MatchesPiece(MARKER[7], t) <==> t == "-->"
  {
    forall c: char
      ensures (c in ID_CHARS <==> IsIdChar(c)) && (c in SPACES <==> IsSpace(c)) && (c in BLANKS <==> c == ' ' || c == '\t')
    {
      IdChars(c);
    }
    hide ID_CHARS, SPACES, BLANKS, IsIdChar, IsSpace;
  }

  lemma CommentIsMarker(indent: string, s1: string, s2: string, id: string, s3: string, s4: string)
    requires IsComment(indent, s1, s2, id, s3, s4)
    ensures IsMarker(Comment(indent, s1, s2, id, s3, s4))
  {
    hide Matches, MatchesPiece, MARKER, IsComment;
    Pieces(indent, s1, s2, id, s3, s4);
    EmptyMatches();
    assert s4 + "" == s4 && MARKER[0..] == MARKER;
    MatchFrom(8, s4, "");
    MatchFrom(7, "-->", s4);
    MatchFrom(6, s3, "-->" + s4);
    MatchFrom(5, id, s3 + ("-->" + s4));
    var t5 := id + (s3 + ("-->" + s4));
    MatchFrom(4, s2, t5);
    MatchFrom(3, "block:", s2 + t5);
    MatchFrom(2, s1, "block:" + (s2 + t5));
    var t2 := s1 + ("block:" + (s2 + t5));
    MatchFrom(1, "<!--", t2);
    MatchFrom(0, indent, "<!--" + t2);
  }

  /** What a match gives the first of its pieces. */
  lemma MatchSplits(k: nat, s: string) returns (head: string, tail: string)
    requires k < |MARKER| && Matches(MARKER[k..], s)
    ensures s == head + tail && MatchesPiece(MARKER[k], head) && Matches(MARKER[k + 1..], tail)
  {
    hide MARKER, MatchesPiece;
    var pattern := MARKER[k..];
    assert pattern[0] == MARKER[k] && pattern[1..] == MARKER[k + 1..];
    var n :| 0 <= n <= |s| && MatchesPiece(pattern[0], s[..n]) && Matches(pattern[1..], s[n..]);
    head, tail := s[..n], s[n..];
  }

  /** The lines taken for markers are exactly the written-out ones. */
  lemma MarkerForm(line: string)
    ensures IsMarker(line) <==>
      exists indent, s1, s2, id, s3, s4 ::
        IsComment(indent, s1, s2, id, s3, s4) && line == Comment(indent, s1, s2, id, s3, s4)
  {
    hide Matches, MatchesPiece, MARKER, IsComment;
    if IsMarker(line) {
      Pieces("", "", "", "", "", "");
      assert MARKER[0..] == MARKER;
      var indent, t0 := MatchSplits(0, line);
      var open, t1 := MatchSplits(1, t0);
      var s1, t2 := MatchSplits(2, t1);
      var word, t3 := MatchSplits(3, t2);
      var s2, t4 := MatchSplits(4, t3);
      var id, t5 := MatchSplits(5, t4);
      var s3, t6 := MatchSplits(6, t5);
      var close, t7 := MatchSplits(7, t6);
      var s4, t8 := MatchSplits(8, t7);
      Pieces(indent, s1, s2, id, s3, s4);
      NothingMatchesNothing(t8);
      assert t7 == s4;
      assert line == Comment(indent, s1, s2, id, s3, s4);
    }
    if indent, s1, s2, id, s3, s4 :|
         IsComment(indent, s1, s2, id, s3, s4) && line == Comment(indent, s1, s2, id, s3, s4) {
      CommentIsMarker(indent, s1, s2, id, s3, s4);
    }
  }

  lemma NothingMatchesNothing(s: string)
    requires |MARKER| == 9 && Matches(MARKER[9..], s)
    ensures s == ""
  {
  }

  // ---------------------------------------------------------------- the pass

  /** A block opens at a line that is neither blank nor a marker and follows a blank line or nothing. */
  predicate IsOpener(lines: seq<string>, i: nat)
    requires i < |lines|
  {
    !IsBlank(lines[i]) && !IsMarker(lines[i]) && (i == 0 || IsBlank(lines[i - 1]))
  }

  function Openers(lines: seq<string>, n: nat): (count: nat)
    requires n <= |lines|
    ensures count <= n
  {
    if n == 0 then 0 else Openers(lines, n - 1) + if IsOpener(lines, n - 1) then 1 else 0
  }

  /** The first n lines with a marker above each opener, the ids used in order. */
  function Marked(lines: seq<string>, ids: seq<string>, n: nat): seq<string>
    requires n <= |lines| && Openers(lines, n) <= |ids|
  {
    if n == 0 then []
    else Marked(lines, ids, n - 1) +
         if IsOpener(lines, n - 1) then [MarkerLine(ids[Openers(lines, n - 1)]), lines[n - 1]] else [lines[n - 1]]
  }

  /** Which of the marked lines were inserted. */
  function Inserted(lines: seq<string>, n: nat): seq<bool>
    requires n <= |lines|
  {
    if n == 0 then []
    else Inserted(lines, n - 1) + if IsOpener(lines, n - 1) then [true, false] else [false]
  }

  function Delete(lines: seq<string>, flags: seq<bool>): seq<string>
    requires |lines| == |flags|
  {
    if lines == [] then []
    else Delete(lines[..|lines| - 1], flags[..|lines| - 1]) +
         if flags[|lines| - 1] then [] else [lines[|lines| - 1]]
  }

  lemma MarkerHasBracket(line: string)
    requires IsMarker(line)
    ensures exists i | 0 <= i < |line| :: line[i] == '<'
  {
    var k :| 0 <= k <= |line| && MatchesPiece(MARKER[0], line[..k]) && Matches(MARKER[1..], line[k..]);
    var rest := line[k..];
    assert MARKER[1..][0] == Literal("<!--");
    var j :| 0 <= j <= |rest| && MatchesPiece(MARKER[1..][0], rest[..j]) && Matches(MARKER[1..][1..], rest[j..]);
    assert rest[..j] == "<!--" && rest[0] == rest[..j][0] == '<';
    assert line[k] == rest[0];
  }

  lemma BlankIsNoMarker(line: string)
    requires IsBlank(line)
    ensures !IsMarker(line)
  {
    if IsMarker(line) {
      MarkerHasBracket(line);
    }
  }

  lemma NothingMarked(lines: seq<string>)
    ensures Openers(lines, 0) == 0 && Marked(lines, [], 0) == []
  {
  }

  lemma {:induction false} MarkedPrefix(lines: seq<string>, ids: seq<string>, more: seq<string>, n: nat)
    requires n <= |lines| && Openers(lines, n) <= |ids|
    ensures Marked(lines, ids + more, n) == Marked(lines, ids, n)
  {
    if n > 0 {
      MarkedPrefix(lines, ids, more, n - 1);
    }
  }

  /** One more line: with a marker above it when it opens a block. */
  lemma OneMoreLine(lines: seq<string>, ids: seq<string>, id: string, i: nat)
    requires i < |lines| && Openers(lines, i) == |ids|
    ensures IsOpener(lines, i) ==>
      Openers(lines, i + 1) == |ids| + 1 &&
      Marked(lines, ids + [id], i + 1) == Marked(lines, ids, i) + [MarkerLine(id)] + [lines[i]]
    ensures !IsOpener(lines, i) ==>
      Openers(lines, i + 1) == |ids| && Marked(lines, ids, i + 1) == Marked(lines, ids, i) + [lines[i]]
  {
    hide IsOpener, MarkerLine;
    MarkedPrefix(lines, ids, [id], i);
  }

  /** `stamps` and `tails` say which state of the generator made each inserted id; the clock and the random
      bits are whatever they are. */
  method AssignMissingBlockIds(content: string, gen: UuidV7.Generator)
    returns (result: string, changed: bool, ghost ids: seq<string>, ghost stamps: seq<int>, ghost tails: seq<nat>)
    requires gen.Valid()
    modifies gen
    ensures gen.Valid()
    ensures var lines := SplitSpec(content);
      |ids| == Openers(lines, |lines|) && result == JoinSpec(Marked(lines, ids, |lines|))
    ensures changed == (|ids| > 0)
    ensures |ids| == |stamps| == |tails|
    ensures forall i | 0 <= i < |ids| :: ids[i] == UuidV7.IdAt(stamps[i], tails[i]) && UuidV7.IsUuidText(ids[i])
    ensures forall i, j | 0 <= i < j < |ids| :: stamps[i] < stamps[j]
  {
    hide UuidV7.IdAt, UuidV7.IsUuidText, IsMarker, IsBlank, MarkerLine, Marked, Openers, SplitSpec, JoinSpec;
    changed, ids, stamps, tails := false, [], [], [];
    var lines := SplitLines(content);
    NothingMarked(lines);
    var out: seq<string>, i := [], 0;
    while i < |lines|
      modifies gen
      invariant 0 <= i <= |lines| && gen.Valid()
      invariant |ids| == Openers(lines, i) && out == Marked(lines, ids, i) && changed == (|ids| > 0)
      invariant i > 0 ==> out != [] && out[|out| - 1] == lines[i - 1]
      invariant |ids| == |stamps| == |tails|
      invariant forall k | 0 <= k < |ids| :: ids[k] == UuidV7.IdAt(stamps[k], tails[k]) && UuidV7.IsUuidText(ids[k])
      invariant forall j, k | 0 <= j < k < |ids| :: stamps[j] < stamps[k]
      invariant forall k | 0 <= k < |ids| :: stamps[k] <= gen.Stamp()
    {
      var line := lines[i];
      var prevBlank := i == 0 || IsBlank(lines[i - 1]);
      OneMoreLine(lines, ids, "", i);
      if !IsBlank(line) && !IsMarker(line) && prevBlank {
        if i > 0 {
          BlankIsNoMarker(lines[i - 1]);
        }
        var prevOutIsMarker := out != [] && IsMarker(out[|out| - 1]);
        if !prevOutIsMarker {
          var now: int := *;
          var tail: nat := *;
          var id := gen.MakeUuidV7(now, tail);
          UuidV7.IdAtLayout(gen.Stamp(), tail);
          out := out + [MarkerLine(id)];
          changed := true;
          OneMoreLine(lines, ids, id, i);
          ids, stamps, tails := ids + [id], stamps + [gen.Stamp()], tails + [tail];
        }
      }
      out := out + [line];
      i := i + 1;
    }
    result := JoinLines(out);
  }

  // ---------------------------------------------------------------- what the pass guarantees

  ghost predicate Generated(ids: seq<string>) {
    forall i | 0 <= i < |ids| :: UuidV7.IsUuidText(ids[i])
  }

  function Count(flags: seq<bool>): nat {
    if flags == [] then 0 else Count(flags[..|flags| - 1]) + if flags[|flags| - 1] then 1 else 0
  }

  /** Deleting the inserted lines gives the document back, and there is one for each opener. */
  lemma {:induction false} DeletionRestores(lines: seq<string>, ids: seq<string>, n: nat)
    requires n <= |lines| && Openers(lines, n) <= |ids|
    ensures |Marked(lines, ids, n)| == |Inserted(lines, n)| == n + Openers(lines, n)
    ensures Delete(Marked(lines, ids, n), Inserted(lines, n)) == lines[..n]
    ensures Count(Inserted(lines, n)) == Openers(lines, n)
  {
    hide IsOpener, MarkerLine, Delete, Count;
    if n == 0 {
      NothingDeleted();
    } else {
      DeletionRestores(lines, ids, n - 1);
      var before, flags := Marked(lines, ids, n - 1), Inserted(lines, n - 1);
      var line := lines[n - 1];
      assert lines[..n] == lines[..n - 1] + [line];
      if IsOpener(lines, n - 1) {
        var marker := MarkerLine(ids[Openers(lines, n - 1)]);
        DeleteLast(before, flags, marker, true);
        DeleteLast(before + [marker], flags + [true], line, false);
        assert Marked(lines, ids, n) == before + [marker] + [line];
        assert Inserted(lines, n) == flags + [true] + [false];
      } else {
        DeleteLast(before, flags, line, false);
      }
    }
  }

  lemma DeleteLast(lines: seq<string>, flags: seq<bool>, line: string, flag: bool)
    requires |lines| == |flags|
    ensures Delete(lines + [line], flags + [flag]) == Delete(lines, flags) + if flag then [] else [line]
    ensures Count(flags + [flag]) == Count(flags) + if flag then 1 else 0
  {
    assert (lines + [line])[..|lines|] == lines && (flags + [flag])[..|flags|] == flags;
  }

  lemma NothingDeleted()
    ensures Delete([], []) == [] && Count([]) == 0
  {
  }

  /** No line of the marked document opens a block without a marker. */
  lemma {:induction false} NothingLeftToMark(lines: seq<string>, ids: seq<string>, n: nat)
    requires n <= |lines| && Openers(lines, n) <= |ids| && Generated(ids)
    ensures var out := Marked(lines, ids, n);
      && (forall i | 0 <= i < |out| :: !IsOpener(out, i))
      && (n > 0 ==> out != [] && out[|out| - 1] == lines[n - 1])
      && (n == 0 ==> out == [])
  {
    hide IsMarker, IsBlank, MarkerLine, UuidV7.IsUuidText;
    if n > 0 {
      NothingLeftToMark(lines, ids, n - 1);
      var before, out := Marked(lines, ids, n - 1), Marked(lines, ids, n);
      if IsOpener(lines, n - 1) {
        GeneratedIsMarker(ids[Openers(lines, n - 1)]);
      }
      forall i | 0 <= i < |out|
        ensures !IsOpener(out, i)
      {
        if i < |before| {
          assert !IsOpener(before, i);
        }
      }
    }
  }

  lemma {:induction false} NoOpenersCount(lines: seq<string>, ids: seq<string>, n: nat)
    requires n <= |lines| && forall i | 0 <= i < n :: !IsOpener(lines, i)
    ensures Openers(lines, n) == 0 && Marked(lines, ids, n) == lines[..n]
  {
    if n > 0 {
      NoOpenersCount(lines, ids, n - 1);
    }
  }

  lemma {:induction false} MarkedIsLines(lines: seq<string>, ids: seq<string>, n: nat)
    requires n <= |lines| && Openers(lines, n) <= |ids| && Generated(ids) && AllLines(lines)
    ensures AllLines(Marked(lines, ids, n))
  {
    hide IsMarker, IsBlank, MarkerLine, UuidV7.IsUuidText;
    if n > 0 {
      MarkedIsLines(lines, ids, n - 1);
      if IsOpener(lines, n - 1) {
        GeneratedIsMarker(ids[Openers(lines, n - 1)]);
      }
    }
  }

  /** For every document: a second pass finds no opener and returns its input; deleting the inserted lines gives
      the original back; and the document changes exactly when it has an unmarked opener. */
  lemma PassIsIdempotent(content: string, ids: seq<string>)
    requires Generated(ids) && |ids| == Openers(SplitSpec(content), |SplitSpec(content)|)
    ensures var lines := SplitSpec(content);
      var out := Marked(lines, ids, |lines|);
      var result := JoinSpec(out);
      && SplitSpec(result) == out
      && Openers(out, |out|) == 0 && JoinSpec(Marked(out, [], |out|)) == result
      && |out| == |Inserted(lines, |lines|)|
      && JoinSpec(Delete(out, Inserted(lines, |lines|))) == content
      && Count(Inserted(lines, |lines|)) == |ids|
      && (result != content <==> |ids| > 0)
  {
    hide IsMarker, IsBlank, UuidV7.IsUuidText, SplitSpec, JoinSpec;
    var lines := SplitSpec(content);
    var out := Marked(lines, ids, |lines|);
    JoinAfterSplit(content);
    DeletionRestores(lines, ids, |lines|);
    NothingLeftToMark(lines, ids, |lines|);
    MarkedIsLines(lines, ids, |lines|);
    SplitAfterJoin(out);
    NoOpenersCount(out, [], |out|);
    assert lines[..|lines|] == lines && out[..|out|] == out;
    if |ids| == 0 {
      NoMarksNeeded(lines, ids, |lines|);
    }
  }

  lemma {:induction false} NoMarksNeeded(lines: seq<string>, ids: seq<string>, n: nat)
    requires n <= |lines| && Openers(lines, n) == 0
    ensures Marked(lines, ids, n) == lines[..n]
  {
    if n > 0 {
      NoMarksNeeded(lines, ids, n - 1);
    }
  }

  /** An inserted line is a marker with one of the new ids, and stands above an old line that is neither blank nor a
      marker, at the start of the document or below a blank line. */
  ghost predicate StandsAbove(out: seq<string>, flags: seq<bool>, ids: seq<string>, i: nat)
    requires i < |out| == |flags|
  {
    && i + 1 < |out| && !flags[i + 1] && !IsBlank(out[i + 1]) && !IsMarker(out[i + 1])
    && (i == 0 || IsBlank(out[i - 1]))
    && exists k :: 0 <= k < |ids| && out[i] == MarkerLine(ids[k])
  }

  /** What stands above a line keeps standing there when more lines follow. */
  lemma StillAbove(out: seq<string>, flags: seq<bool>, ids: seq<string>, i: nat, more: seq<string>, moreFlags: seq<bool>)
    requires i < |out| == |flags| && |more| == |moreFlags| && StandsAbove(out, flags, ids, i)
    ensures StandsAbove(out + more, flags + moreFlags, ids, i)
  {
    hide IsMarker, IsBlank, MarkerLine;
    var k :| 0 <= k < |ids| && out[i] == MarkerLine(ids[k]);
    assert (out + more)[i] == MarkerLine(ids[k]);
  }

  lemma {:induction false} InsertedStandAbove(lines: seq<string>, ids: seq<string>, n: nat)
    requires n <= |lines| && Openers(lines, n) <= |ids|
    ensures var out, flags := Marked(lines, ids, n), Inserted(lines, n);
      && |out| == |flags|
      && (forall i | 0 <= i < |out| && flags[i] :: StandsAbove(out, flags, ids, i))
      && (n > 0 ==> out != [] && out[|out| - 1] == lines[n - 1])
      && (n == 0 ==> out == [])
  {
    hide IsMarker, IsBlank, StandsAbove, MarkerLine;
    if n > 0 {
      InsertedStandAbove(lines, ids, n - 1);
      var before, flags := Marked(lines, ids, n - 1), Inserted(lines, n - 1);
      var opens := IsOpener(lines, n - 1);
      var marker := if opens then MarkerLine(ids[Openers(lines, n - 1)]) else "";
      var more, moreFlags := if opens then [marker, lines[n - 1]] else [lines[n - 1]], if opens then [true, false] else [false];
      var out, new' := before + more, flags + moreFlags;
      assert out == Marked(lines, ids, n) && new' == Inserted(lines, n);
      forall i | 0 <= i < |out| && new'[i]
        ensures StandsAbove(out, new', ids, i)
      {
        if i < |before| {
          StillAbove(before, flags, ids, i, more, moreFlags);
        } else {
          NewStandsAbove(lines, before, flags, ids, n);
        }
      }
    }
  }

  lemma NewStandsAbove(lines: seq<string>, before: seq<string>, flags: seq<bool>, ids: seq<string>, n: nat)
    requires 0 < n <= |lines| && Openers(lines, n) <= |ids| && IsOpener(lines, n - 1) && |before| == |flags|
    requires (n == 1 ==> before == []) && (n > 1 ==> before != [] && before[|before| - 1] == lines[n - 2])
    ensures Openers(lines, n - 1) < |ids|
    ensures StandsAbove(before + [MarkerLine(ids[Openers(lines, n - 1)]), lines[n - 1]], flags + [true, false], ids, |before|)
  {
    hide IsMarker, IsBlank, MarkerLine;
    var k := Openers(lines, n - 1);
    var out := before + [MarkerLine(ids[k]), lines[n - 1]];
    assert out[|before|] == MarkerLine(ids[k]) && out[|before| + 1] == lines[n - 1];
  }

  /** A line begins a block when it is not blank and follows a blank line or nothing. */
  ghost predicate BeginsBlock(lines: seq<string>, i: nat)
    requires i < |lines|
  {
    !IsBlank(lines[i]) && (i == 0 || IsBlank(lines[i - 1]))
  }

  /** Where the markers go. In the new document every line that begins a block is a marker. An inserted line is a marker
      with one of the new ids, and stands above an old line that is neither blank nor a marker, at the start of the
      document or below a blank line. */
  lemma MarkersAboveBlocks(lines: seq<string>, ids: seq<string>)
    requires Openers(lines, |lines|) <= |ids| && Generated(ids)
    ensures var out, flags := Marked(lines, ids, |lines|), Inserted(lines, |lines|);
      && |out| == |flags|
      && (forall i | 0 <= i < |out| && BeginsBlock(out, i) :: IsMarker(out[i]))
      && (forall i | 0 <= i < |out| && flags[i] ::
            && i + 1 < |out| && !flags[i + 1] && !IsBlank(out[i + 1]) && !IsMarker(out[i + 1])
            && (i == 0 || IsBlank(out[i - 1]))
            && exists k :: 0 <= k < |ids| && out[i] == "<!-- block: " + ids[k] + " -->")
  {
    hide IsMarker, IsBlank, Marked, Inserted, Openers;
    NothingLeftToMark(lines, ids, |lines|);
    InsertedStandAbove(lines, ids, |lines|);
    var out, flags := Marked(lines, ids, |lines|), Inserted(lines, |lines|);
    forall i | 0 <= i < |out| && BeginsBlock(out, i)
      ensures IsMarker(out[i])
    {
      assert !IsOpener(out, i);
    }
    forall i | 0 <= i < |out| && flags[i]
      ensures StandsAbove(out, flags, ids, i)
      ensures exists k :: 0 <= k < |ids| && out[i] == "<!-- block: " + ids[k] + " -->"
    {
      var k :| 0 <= k < |ids| && out[i] == MarkerLine(ids[k]);
      assert out[i] == "<!-- block: " + ids[k] + " -->";
    }
  }
}

/** The monotonic UUIDv7 generator: a millisecond clock with a 12-bit counter, packed into 128 bits
    and printed as 8-4-4-4-12 lower-case hex (section 5.7 of RFC 9562). */
module UuidV7 {
  import opened TextOrder

  const DIGITS: string := "0123456789abcdef"

  // ---------------------------------------------------------------- text layout

  function Pow16(w: nat): (p: nat)
    ensures p > 0
  {
    if w == 0 then 1 else 16 * Pow16(w - 1)
  }

  /** What printf's %0<w>x prints for a value that fits in w digits. */
  function Hex(n: nat, w: nat): (s: string)
    ensures |s| == w
    ensures forall i :: 0 <= i < w ==> s[i] in DIGITS
  {
    if w == 0 then "" else Hex(n / 16, w - 1) + [DIGITS[n % 16]]
  }

  /** The high 64 bits: timestamp, version 7, counter. Masks are remainders, shifts are products, and the three or-ed
      fields are disjoint, so `|` is `+`. Dafny's `%` on a negative `ms` is the two's-complement mask. */
  function High(ms: int, randA: nat): (hi: nat) {
    ms % 0x1_0000_0000_0000 * 0x1_0000 + 0x7000 + randA % 0x1000
  }

  /** The low 64 bits: variant 10 and 62 random bits. */
  function Low(randB: nat): (lo: nat) {
    0x8000_0000_0000_0000 + randB % 0x4000_0000_0000_0000
  }

  function Fields(a: nat, b: nat, c: nat, d: nat, e: nat): string {
    Hex(a, 8) + ("-" + (Hex(b, 4) + ("-" + (Hex(c, 4) + ("-" + (Hex(d, 4) + ("-" + Hex(e, 12))))))))
  }

  function Print(hi: nat, lo: nat): (text: string) {
    Fields(hi / 0x1_0000_0000 % 0x1_0000_0000, hi / 0x1_0000 % 0x1_0000, hi % 0x1_0000,
           lo / 0x1_0000_0000_0000 % 0x1_0000, lo % 0x1_0000_0000_0000)
  }

  function Format(ms: int, randA: nat, randB: nat): (text: string) {
    Print(High(ms, randA), Low(randB))
  }

  lemma DigitOrder(a: nat, b: nat)
    requires a < 16 && b < 16
    ensures DIGITS[a] < DIGITS[b] <==> a < b
    ensures DIGITS[a] == DIGITS[b] <==> a == b
  {
    assert forall i, j :: 0 <= i < j < 10 ==> DIGITS[i] < DIGITS[j];
    assert forall i, j :: 10 <= i < j < 16 ==> DIGITS[i] < DIGITS[j];
    assert forall i, j :: 0 <= i < 10 <= j < 16 ==> DIGITS[i] < DIGITS[j];
  }

  /** Fixed-width hex is an order embedding: the text order is the number order. */
  lemma {:induction false} HexOrder(a: nat, b: nat, w: nat)
    requires a < Pow16(w) && b < Pow16(w)
    ensures Less(Hex(a, w), Hex(b, w)) <==> a < b
    ensures Hex(a, w) == Hex(b, w) <==> a == b
  {
    hide Less;
    if w == 0 {
      Irreflexive("");
    } else {
      HexOrder(a / 16, b / 16, w - 1);
      var x, y := [DIGITS[a % 16]], [DIGITS[b % 16]];
      LastDigitOrder(a % 16, b % 16);
      ConcatOrder(Hex(a / 16, w - 1), x, Hex(b / 16, w - 1), y);
      assert Hex(a, w)[..w - 1] == Hex(a / 16, w - 1) && Hex(b, w)[..w - 1] == Hex(b / 16, w - 1);
      assert Hex(a, w)[w - 1] == x[0] && Hex(b, w)[w - 1] == y[0];
    }
  }

  lemma LastDigitOrder(a: nat, b: nat)
    requires a < 16 && b < 16
    ensures Less([DIGITS[a]], [DIGITS[b]]) <==> a < b
    ensures DIGITS[a] == DIGITS[b] <==> a == b
  {
    DigitOrder(a, b);
    var x, y := [DIGITS[a]], [DIGITS[b]];
    assert x[1..] == "" && y[1..] == "";
  }

  /** One printed field and its dash, followed by a rest. */
  lemma FieldOrder(a: nat, b: nat, w: nat, s: string, t: string)
    requires a < Pow16(w) && b < Pow16(w)
    ensures Less(Hex(a, w) + ("-" + s), Hex(b, w) + ("-" + t)) <==> a < b || (a == b && Less(s, t))
  {
    HexOrder(a, b, w);
    ConcatOrder(Hex(a, w), "-" + s, Hex(b, w), "-" + t);
    ConcatOrder("-", s, "-", t);
    Irreflexive("-");
  }

  lemma Widths()
    ensures Pow16(4) == 0x1_0000 && Pow16(8) == 0x1_0000_0000 && Pow16(12) == 0x1_0000_0000_0000
  {
    assert Pow16(4) == 65536;
    assert Pow16(8) == 65536 * Pow16(4);
    assert Pow16(12) == 65536 * Pow16(8);
  }

  /** Splitting a word into fields keeps the order. */
  lemma WordOrder(x: nat, y: nat)
    requires x < 0x1_0000_0000_0000_0000 && y < 0x1_0000_0000_0000_0000
    ensures var a, b, c, d, e, f := x / 0x1_0000_0000, y / 0x1_0000_0000,
                                    x / 0x1_0000 % 0x1_0000, y / 0x1_0000 % 0x1_0000, x % 0x1_0000, y % 0x1_0000;
      && (x < y <==> a < b || (a == b && (c < d || (c == d && e < f))))
      && (x == y <==> a == b && c == d && e == f)
      && a % 0x1_0000_0000 == a && b % 0x1_0000_0000 == b
  {
    var a, c, e := x / 0x1_0000_0000, x / 0x1_0000 % 0x1_0000, x % 0x1_0000;
    var b, d, f := y / 0x1_0000_0000, y / 0x1_0000 % 0x1_0000, y % 0x1_0000;
    assert x == 0x1_0000_0000 * a + 0x1_0000 * c + e;
    assert y == 0x1_0000_0000 * b + 0x1_0000 * d + f;
  }

  lemma HalfOrder(x: nat, y: nat)
    requires x < 0x1_0000_0000_0000_0000 && y < 0x1_0000_0000_0000_0000
    ensures var a, b, c, d := x / 0x1_0000_0000_0000, y / 0x1_0000_0000_0000,
                              x % 0x1_0000_0000_0000, y % 0x1_0000_0000_0000;
      && (x < y <==> a < b || (a == b && c < d))
      && (x == y <==> a == b && c == d)
      && a % 0x1_0000 == a && b % 0x1_0000 == b
  {
  }

  /** The text order of two printed ids is the order of the 128-bit values they carry. */
  lemma PrintOrder(hi: nat, lo: nat, hi': nat, lo': nat)
    requires hi < 0x1_0000_0000_0000_0000 && hi' < 0x1_0000_0000_0000_0000
    requires lo < 0x1_0000_0000_0000_0000 && lo' < 0x1_0000_0000_0000_0000
    ensures Less(Print(hi, lo), Print(hi', lo')) <==> hi < hi' || (hi == hi' && lo < lo')
  {
    hide Hex, Less, Pow16;
    Widths();
    var a, b, c := hi / 0x1_0000_0000 % 0x1_0000_0000, hi / 0x1_0000 % 0x1_0000, hi % 0x1_0000;
    var a', b', c' := hi' / 0x1_0000_0000 % 0x1_0000_0000, hi' / 0x1_0000 % 0x1_0000, hi' % 0x1_0000;
    var d, e := lo / 0x1_0000_0000_0000 % 0x1_0000, lo % 0x1_0000_0000_0000;
    var d', e' := lo' / 0x1_0000_0000_0000 % 0x1_0000, lo' % 0x1_0000_0000_0000;
    FieldsOrder(a, b, c, d, e, a', b', c', d', e');
    WordOrder(hi, hi');
    HalfOrder(lo, lo');
  }

  lemma FieldsOrder(a: nat, b: nat, c: nat, d: nat, e: nat, a': nat, b': nat, c': nat, d': nat, e': nat)
    requires a < Pow16(8) && b < Pow16(4) && c < Pow16(4) && d < Pow16(4) && e < Pow16(12)
    requires a' < Pow16(8) && b' < Pow16(4) && c' < Pow16(4) && d' < Pow16(4) && e' < Pow16(12)
    ensures Less(Fields(a, b, c, d, e), Fields(a', b', c', d', e')) <==>
            a < a' || (a == a' && (b < b' || (b == b' && (c < c' || (c == c' && (d < d' || (d == d' && e < e')))))))
  {
    hide Hex, Less, Pow16;
    HexOrder(e, e', 12);
    var v, v' := Hex(d, 4) + ("-" + Hex(e, 12)), Hex(d', 4) + ("-" + Hex(e', 12));
    FieldOrder(d, d', 4, Hex(e, 12), Hex(e', 12));
    var t, t' := Hex(c, 4) + ("-" + v), Hex(c', 4) + ("-" + v');
    FieldOrder(c, c', 4, v, v');
    var u, u' := Hex(b, 4) + ("-" + t), Hex(b', 4) + ("-" + t');
    FieldOrder(b, b', 4, t, t');
    FieldOrder(a, a', 8, u, u');
  }

  predicate IsDigit(c: char) {
    '0' <= c <= '9' || 'a' <= c <= 'f'
  }

  lemma DigitsAreDigits(c: char)
    requires c in DIGITS
    ensures IsDigit(c)
  {
    assert forall i :: 0 <= i < 10 ==> '0' <= DIGITS[i] <= '9';
    assert forall i :: 10 <= i < 16 ==> 'a' <= DIGITS[i] <= 'f';
  }

  ghost predicate IsUuidText(text: string) {
    && |text| == 36
    && (forall i :: 0 <= i < 36 ==> IsDigit(text[i]) || text[i] == '-')
    && text[8] == text[13] == text[18] == text[23] == '-'
  }

  /** Thirty-six characters, digits and dashes only, version nibble 7, variant bits 10. */
  lemma Layout(ms: int, randA: nat, randB: nat)
    ensures IsUuidText(Format(ms, randA, randB))
    ensures Format(ms, randA, randB)[14] == '7'
    ensures Format(ms, randA, randB)[19] in "89ab"
  {
    hide Fields, Hex;
    var hi, lo := High(ms, randA), Low(randB);
    assert hi % 0x1_0000 / 0x1000 == 7;
    assert 8 <= lo / 0x1_0000_0000_0000 % 0x1_0000 / 0x1000 < 12;
    FieldsLayout(hi / 0x1_0000_0000 % 0x1_0000_0000, hi / 0x1_0000 % 0x1_0000, hi % 0x1_0000,
                 lo / 0x1_0000_0000_0000 % 0x1_0000, lo % 0x1_0000_0000_0000);
  }

  lemma FieldsLayout(a: nat, b: nat, c: nat, d: nat, e: nat)
    requires c / 0x1000 == 7 && 8 <= d / 0x1000 < 12
    ensures IsUuidText(Fields(a, b, c, d, e))
    ensures Fields(a, b, c, d, e)[14] == '7'
    ensures Fields(a, b, c, d, e)[19] in "89ab"
  {
    hide Hex;
    LeadingDigit(c);
    LeadingDigit(d);
    AllDigits(a, b, c, d, e);
    var h := Hex(d, 4)[0];
    assert h == DIGITS[8] || h == DIGITS[9] || h == DIGITS[10] || h == DIGITS[11];
  }

  lemma AllDigits(a: nat, b: nat, c: nat, d: nat, e: nat)
    ensures var text := Fields(a, b, c, d, e); forall i :: 0 <= i < |text| ==> IsDigit(text[i]) || text[i] == '-'
  {
    hide Hex;
    forall k | k in DIGITS
      ensures IsDigit(k)
    {
      DigitsAreDigits(k);
    }
    hide IsDigit;
  }

  lemma LeadingDigit(n: nat)
    requires n < 0x1_0000
    ensures Hex(n, 4)[0] == DIGITS[n / 0x1000]
  {
    hide Hex;
    DropDigit(n, 2);
    DropDigit(n / 16, 1);
    DropDigit(n / 16 / 16, 0);
    assert n / 16 / 16 / 16 == n / 0x1000;
    OneDigit(n / 0x1000, 1);
  }

  lemma DropDigit(n: nat, w: nat)
    ensures Hex(n, w + 2)[0] == Hex(n / 16, w + 1)[0]
  {
  }

  lemma OneDigit(n: nat, w: nat)
    requires n < 16 && w == 1
    ensures Hex(n, w)[0] == DIGITS[n]
  {
    assert Hex(n, w) == Hex(n / 16, w - 1) + [DIGITS[n % 16]];
  }

  // ---------------------------------------------------------------- reading the text back

  /** The number that hexadecimal digits spell; dashes are skipped. */
  function Read(text: string): nat {
    if text == "" then 0 else
    var before, c := Read(text[..|text| - 1]), text[|text| - 1];
    if '0' <= c <= '9' then 16 * before + (c as int - '0' as int)
    else if 'a' <= c <= 'f' then 16 * before + 10 + (c as int - 'a' as int)
    else before
  }

  lemma ReadDigit(text: string, d: nat)
    requires d < 16
    ensures Read(text + [DIGITS[d]]) == 16 * Read(text) + d
  {
    var s := text + [DIGITS[d]];
    assert s[..|s| - 1] == text && s[|s| - 1] == DIGITS[d];
    assert forall i :: 0 <= i < 10 ==> DIGITS[i] as int == '0' as int + i;
    assert forall i :: 10 <= i < 16 ==> DIGITS[i] as int == 'a' as int + i - 10;
  }

  lemma {:induction false} ReadHex(text: string, n: nat, w: nat)
    requires n < Pow16(w)
    ensures Read(text + Hex(n, w)) == Read(text) * Pow16(w) + n
  {
    hide Read;
    if w == 0 {
      assert text + Hex(n, w) == text;
    } else {
      ReadHex(text, n / 16, w - 1);
      ReadDigit(text + Hex(n / 16, w - 1), n % 16);
      assert text + Hex(n, w) == text + Hex(n / 16, w - 1) + [DIGITS[n % 16]];
      Weigh(Read(text), Pow16(w - 1), n);
    }
  }

  lemma Weigh(r: nat, p: nat, n: nat)
    ensures 16 * (r * p + n / 16) + n % 16 == r * (16 * p) + n
  {
  }

  lemma ReadPair(a: nat, v: nat, b: nat, w: nat)
    requires a < Pow16(v) && b < Pow16(w)
    ensures Read(Hex(a, v) + ("-" + Hex(b, w))) == a * Pow16(w) + b
    ensures Read(Hex(b, w)) == b
  {
    hide *;
    var one := Hex(a, v) + "-";
    ReadDash(Hex(a, v));
    ReadHex("", a, v);
    ReadHex("", b, w);
    ReadHex(one, b, w);
    assert "" + Hex(a, v) == Hex(a, v) && "" + Hex(b, w) == Hex(b, w);
    assert one + Hex(b, w) == Hex(a, v) + ("-" + Hex(b, w));
  }

  lemma ReadDash(text: string)
    ensures Read(text + "-") == Read(text) && Read("") == 0
  {
    assert (text + "-")[..|text|] == text;
  }

  lemma FieldsReadBack(a: nat, b: nat, c: nat, d: nat, e: nat)
    requires a < 0x1_0000_0000 && b < 0x1_0000 && c < 0x1_0000 && d < 0x1_0000 && e < 0x1_0000_0000_0000
    ensures var text := Fields(a, b, c, d, e);
      && |text| == 36
      && Read(text[..13]) == a * 0x1_0000 + b && Read(text[14..18]) == c
      && Read(text[19..]) == d * 0x1_0000_0000_0000 + e
  {
    Widths();
    hide Hex, Pow16, Read;
    var text := Fields(a, b, c, d, e);
    ReadPair(a, 8, b, 4);
    ReadPair(c, 4, c, 4);
    ReadPair(d, 4, e, 12);
    assert text[..13] == Hex(a, 8) + ("-" + Hex(b, 4));
    assert text[14..18] == Hex(c, 4);
    assert text[19..] == Hex(d, 4) + ("-" + Hex(e, 12));
  }

  /** The text carries what it was made from: the first twelve digits spell the time, the next four the version and the
      counter, the last sixteen the variant and the random bits. */
  lemma ReadsBack(ms: int, randA: nat, randB: nat)
    ensures var text := Format(ms, randA, randB);
      && |text| == 36
      && Read(text[..13]) == ms % 0x1_0000_0000_0000
      && Read(text[14..18]) == 0x7000 + randA % 0x1000
      && Read(text[19..]) == 0x8000_0000_0000_0000 + randB % 0x4000_0000_0000_0000
  {
    hide Fields, Read;
    var hi, lo := High(ms, randA), Low(randB);
    FieldsReadBack(hi / 0x1_0000_0000 % 0x1_0000_0000, hi / 0x1_0000 % 0x1_0000, hi % 0x1_0000,
                   lo / 0x1_0000_0000_0000 % 0x1_0000, lo % 0x1_0000_0000_0000);
    Halves(ms % 0x1_0000_0000_0000, randA % 0x1000, hi);
    assert lo / 0x1_0000_0000_0000 % 0x1_0000 * 0x1_0000_0000_0000 + lo % 0x1_0000_0000_0000 == lo;
  }

  lemma Halves(m: nat, c: nat, hi: nat)
    requires m < 0x1_0000_0000_0000 && c < 0x1000 && hi == m * 0x1_0000 + 0x7000 + c
    ensures hi / 0x1_0000_0000 % 0x1_0000_0000 * 0x1_0000 + hi / 0x1_0000 % 0x1_0000 == m
    ensures hi % 0x1_0000 == 0x7000 + c
  {
    assert hi / 0x1_0000 == m;
    assert hi / 0x1_0000_0000 == m / 0x1_0000;
  }

  // ---------------------------------------------------------------- the generator

  function Max(a: int, b: int): int {
    if a < b then b else a
  }

  /** The generator's state seen as one number: 4096 ticks to the millisecond. */
  function IdAt(stamp: int, randB: nat): (text: string) {
    Format(stamp / 0x1000, stamp % 0x1000, randB)
  }

  /** The text of a stamp spells its millisecond and its counter. */
  lemma StampReadsBack(stamp: int, randB: nat)
    ensures var text := IdAt(stamp, randB);
      && |text| == 36
      && Read(text[..13]) == stamp / 0x1000 % 0x1_0000_0000_0000
      && Read(text[14..18]) == 0x7000 + stamp % 0x1000
      && Read(text[19..]) == 0x8000_0000_0000_0000 + randB % 0x4000_0000_0000_0000
  {
    hide Format, Read;
    ReadsBack(stamp / 0x1000, stamp % 0x1000, randB);
  }

  lemma IdAtLayout(stamp: int, randB: nat)
    ensures IsUuidText(IdAt(stamp, randB))
  {
    hide Format;
    Layout(stamp / 0x1000, stamp % 0x1000, randB);
  }

  class Generator {
    var lastMs: int
    var counter: nat

    ghost predicate Valid()
      reads this
    {
      0 <= lastMs && counter < 0x1000
    }

    ghost function Stamp(): int
      reads this
    {
      lastMs * 0x1000 + counter
    }

    constructor ()
      ensures Valid() && Stamp() == 0
    {
      lastMs, counter := 0, 0;
    }

    /** `now` is the reading of the wall clock, `randB` the 64 random bits drawn. */
    method MakeUuidV7(now: int, randB: nat) returns (id: string)
      requires Valid()
      modifies this
      ensures Valid()
      ensures Stamp() == Max(old(Stamp()) + 1, now * 0x1000)
      ensures id == IdAt(Stamp(), randB)
    {
      var ms := now;
      if ms <= lastMs {
        if counter >= 0x0FFF {
          ms := lastMs + 1;
          counter := 0;
        } else {
          ms := lastMs;
          counter := counter + 1;
        }
      } else {
        counter := 0;
      }
      lastMs := ms;
      hide Format;
      assert Stamp() / 0x1000 == ms && Stamp() % 0x1000 == counter;
      id := Format(ms, counter, randB);
    }
  }

  /** The stamps of a run of calls that reads `clock` from a generator at `stamp`. */
  function Stamps(stamp: int, clock: seq<int>): (s: seq<int>)
    ensures |s| == |clock|
    decreases clock
  {
    if clock == [] then [] else
    var next := Max(stamp + 1, clock[0] * 0x1000);
    [next] + Stamps(next, clock[1..])
  }

  lemma {:induction false} StampsIncrease(stamp: int, clock: seq<int>)
    ensures forall i :: 0 <= i < |clock| ==> stamp < Stamps(stamp, clock)[i]
    ensures forall i, j :: 0 <= i < j < |clock| ==> Stamps(stamp, clock)[i] < Stamps(stamp, clock)[j]
    decreases clock
  {
    if clock != [] {
      StampsIncrease(Max(stamp + 1, clock[0] * 0x1000), clock[1..]);
    }
  }

  /** For any two stamps, the exact condition for their ids to compare as the stamps do. */
  lemma IdOrder(s: int, r: nat, s': int, r': nat)
    ensures Less(IdAt(s, r), IdAt(s', r')) <==>
            s % 0x1000_0000_0000_0000 < s' % 0x1000_0000_0000_0000 ||
            (s % 0x1000_0000_0000_0000 == s' % 0x1000_0000_0000_0000 &&
              r % 0x4000_0000_0000_0000 < r' % 0x4000_0000_0000_0000)
  {
    hide Fields, Print;
    PrintOrder(High(s / 0x1000, s % 0x1000), Low(r), High(s' / 0x1000, s' % 0x1000), Low(r'));
    HighOrder(s, s');
  }

  lemma HighOrder(s: int, t: int)
    ensures var x, y := High(s / 0x1000, s % 0x1000), High(t / 0x1000, t % 0x1000);
      && (x < y <==> s % 0x1000_0000_0000_0000 < t % 0x1000_0000_0000_0000)
      && (x == y <==> s % 0x1000_0000_0000_0000 == t % 0x1000_0000_0000_0000)
  {
    var m, c, n, d := s / 0x1000 % 0x1_0000_0000_0000, s % 0x1000, t / 0x1000 % 0x1_0000_0000_0000, t % 0x1000;
    SplitStamp(s);
    SplitStamp(t);
    HighOf(s);
    HighOf(t);
    WeighedAlike(m, c, n, d);
    hide *;
  }

  lemma HighOf(s: int)
    ensures High(s / 0x1000, s % 0x1000) == s / 0x1000 % 0x1_0000_0000_0000 * 0x1_0000 + 0x7000 + s % 0x1000
  {
  }

  /** The counter fits below the version nibble, so it weighs the same with and without it. */
  lemma WeighedAlike(m: int, c: int, n: int, d: int)
    requires 0 <= c < 0x1000 && 0 <= d < 0x1000
    ensures m * 0x1_0000 + 0x7000 + c < n * 0x1_0000 + 0x7000 + d <==> m * 0x1000 + c < n * 0x1000 + d
    ensures m * 0x1_0000 + 0x7000 + c == n * 0x1_0000 + 0x7000 + d <==> m * 0x1000 + c == n * 0x1000 + d
  {
  }

  lemma SplitStamp(s: int)
    ensures s % 0x1000_0000_0000_0000 == s / 0x1000 % 0x1_0000_0000_0000 * 0x1000 + s % 0x1000
  {
    var m, c := s / 0x1000, s % 0x1000;
    var k, n := m / 0x1_0000_0000_0000, m % 0x1_0000_0000_0000;
    assert s == 0x1000_0000_0000_0000 * k + (0x1000 * n + c);
    assert 0 <= 0x1000 * n + c < 0x1000_0000_0000_0000;
  }

  /** Every run of calls, whatever the clock does and whatever the random tails are, yields strictly
      increasing texts for as long as the stamped milliseconds fit in 48 bits. */
  lemma RunIsOrdered(clock: seq<int>, tails: seq<nat>, i: nat, j: nat)
    requires |clock| == |tails| && i < j < |clock|
    requires Stamps(0, clock)[j] / 0x1000 < 0x1_0000_0000_0000
    ensures Less(IdAt(Stamps(0, clock)[i], tails[i]), IdAt(Stamps(0, clock)[j], tails[j]))
  {
    hide *;
    StampsIncrease(0, clock);
    var s, t := Stamps(0, clock)[i], Stamps(0, clock)[j];
    assert 0 < s < t < 0x1000_0000_0000_0000;
    IdOrder(s, tails[i], t, tails[j]);
  }

  /** One millisecond past 48 bits the timestamp field wraps and the next id sorts first. */
  lemma OrderBreaksAt48Bits(r: nat, r': nat)
    ensures Stamps(0, [0x1_0000_0000_0000 - 1, 0x1_0000_0000_0000]) ==
            [(0x1_0000_0000_0000 - 1) * 0x1000, 0x1_0000_0000_0000 * 0x1000]
    ensures Less(IdAt(0x1_0000_0000_0000 * 0x1000, r'), IdAt((0x1_0000_0000_0000 - 1) * 0x1000, r))
  {
    hide Format;
    assert [0x1_0000_0000_0000 - 1, 0x1_0000_0000_0000][1..] == [0x1_0000_0000_0000];
    assert Stamps((0x1_0000_0000_0000 - 1) * 0x1000, [0x1_0000_0000_0000]) == [0x1_0000_0000_0000 * 0x1000];
    IdOrder(0x1_0000_0000_0000 * 0x1000, r', (0x1_0000_0000_0000 - 1) * 0x1000, r);
  }

  /** After n calls the generator has run ahead of every clock it saw by at most n / 4096 ms. */
  lemma DriftBound(stamp: int, clock: seq<int>, bound: int)
    requires stamp <= bound * 0x1000
    requires forall i :: 0 <= i < |clock| ==> clock[i] <= bound
    ensures forall i :: 0 <= i < |clock| ==> Stamps(stamp, clock)[i] / 0x1000 <= bound + (i + 1) / 0x1000
  {
    DriftFrom(stamp, clock, bound, 0);
  }

  lemma {:induction false} DriftFrom(stamp: int, clock: seq<int>, bound: int, calls: nat)
    requires stamp <= bound * 0x1000 + calls
    requires forall i :: 0 <= i < |clock| ==> clock[i] <= bound
    ensures forall i :: 0 <= i < |clock| ==> Stamps(stamp, clock)[i] <= bound * 0x1000 + calls + i + 1
    ensures forall i :: 0 <= i < |clock| ==> Stamps(stamp, clock)[i] / 0x1000 <= bound + (calls + i + 1) / 0x1000
    decreases clock
  {
    if clock != [] {
      DriftFrom(Max(stamp + 1, clock[0] * 0x1000), clock[1..], bound, calls + 1);
    }
  }
}

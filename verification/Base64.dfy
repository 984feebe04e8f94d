/** Base64 (RFC 4648, section 4): a bit-accumulator decoder whose 32-bit accumulator wraps, and two encoders. */
module Base64 {
  import opened Basics

  type Byte = b: int | 0 <= b < 256
  type Sextet = v: int | 0 <= v < 64

  const UPPER := "ABCDEFGHIJKLMNOPQRSTUVWXYZ"
  const LOWER := "abcdefghijklmnopqrstuvwxyz"
  const OTHER := "0123456789+/"
  const TABLE := UPPER + LOWER + OTHER

  function Value(c: char): int {
    if 'A' <= c <= 'Z' then c as int - 'A' as int
    else if 'a' <= c <= 'z' then c as int - 'a' as int + 26
    else if '0' <= c <= '9' then c as int - '0' as int + 52
    else if c == '+' then 62
    else if c == '/' then 63
    else -1
  }

  /** isspace in the C locale. */
  predicate IsSpace(c: char) {
    c == ' ' || '\t' <= c <= '\r'
  }

  // ----- the alphabet

  function Digit(v: Sextet): char {
    if v < 26 then 'A' + v as char
    else if v < 52 then 'a' + (v - 26) as char
    else if v < 62 then '0' + (v - 52) as char
    else if v == 62 then '+'
    else '/'
  }

  lemma UpperDigit(v: int)
    requires 0 <= v < 26
    ensures |UPPER| == 26 && UPPER[v] == 'A' + v as char
  {
  }

  lemma LowerDigit(v: int)
    requires 0 <= v < 26
    ensures |LOWER| == 26 && LOWER[v] == 'a' + v as char
  {
  }

  lemma OtherDigit(v: int)
    requires 0 <= v < 12
    ensures |OTHER| == 12 && (v < 10 ==> OTHER[v] == '0' + v as char) && OTHER[10] == '+' && OTHER[11] == '/'
  {
  }

  lemma TableIsDigits()
    ensures |TABLE| == 64 && forall v: Sextet :: TABLE[v] == Digit(v)
  {
    forall v: Sextet
      ensures |TABLE| == 64 && TABLE[v] == Digit(v)
    {
      if v < 26 {
        UpperDigit(v);
      } else if v < 52 {
        LowerDigit(v - 26);
      } else {
        OtherDigit(v - 52);
      }
    }
    UpperDigit(0);
    LowerDigit(0);
    OtherDigit(0);
  }

  /** Exactly the 64 characters of the table have a value, and it is their place in the table. */
  lemma ValueInvertsTable(c: char)
    ensures -1 <= Value(c) < 64
    ensures Value(c) >= 0 ==> |TABLE| == 64 && TABLE[Value(c)] == c
    ensures forall v: Sextet :: |TABLE| == 64 && (c == TABLE[v] ==> Value(c) == v && !IsSpace(c) && c != '=')
  {
    TableIsDigits();
  }

  // ----- what a text means, in groups of four digits

  function First(a: Sextet, b: Sextet): Byte { a * 4 + b / 16 }

  function Second(b: Sextet, c: Sextet): Byte { b % 16 * 16 + c / 4 }

  function Third(c: Sextet, d: Sextet): Byte { c % 4 * 64 + d }

  /** The bytes that digits stand for. Bits left over at the end are dropped. */
  function Bytes(s: seq<Sextet>): seq<Byte> {
    if |s| >= 4 then [First(s[0], s[1]), Second(s[1], s[2]), Third(s[2], s[3])] + Bytes(s[4..])
    else if |s| == 3 then [First(s[0], s[1]), Second(s[1], s[2])]
    else if |s| == 2 then [First(s[0], s[1])]
    else []
  }

  function High(x: Byte): Sextet { x / 4 }

  function Upper(x: Byte, y: Byte): Sextet { x % 4 * 16 + y / 16 }

  function Lower(y: Byte, z: Byte): Sextet { y % 16 * 4 + z / 64 }

  function Low(z: Byte): Sextet { z % 64 }

  /** The digits that stand for bytes; the last one is filled up with zero bits. */
  function Sextets(b: seq<Byte>): seq<Sextet> {
    if |b| >= 3 then [High(b[0]), Upper(b[0], b[1]), Lower(b[1], b[2]), Low(b[2])] + Sextets(b[3..])
    else if |b| == 2 then [High(b[0]), Upper(b[0], b[1]), Lower(b[1], 0)]
    else if |b| == 1 then [High(b[0]), Upper(b[0], 0)]
    else []
  }

  function Text(s: seq<Sextet>): string {
    seq(|s|, i requires 0 <= i < |s| => Digit(s[i]))
  }

  function Padding(n: nat): string {
    if n % 3 == 0 then "" else if n % 3 == 1 then "==" else "="
  }

  function Encoded(b: seq<Byte>): string {
    Text(Sextets(b)) + Padding(|b|)
  }

  lemma DigitsBack(x: Byte, y: Byte, z: Byte)
    ensures First(High(x), Upper(x, y)) == x
    ensures Second(Upper(x, y), Lower(y, z)) == y
    ensures Third(Lower(y, z), Low(z)) == z
  {
  }

  lemma FourDigits(a: Sextet, b: Sextet, c: Sextet, d: Sextet, rest: seq<Sextet>)
    ensures Bytes([a, b, c, d] + rest) == [First(a, b), Second(b, c), Third(c, d)] + Bytes(rest)
  {
    assert ([a, b, c, d] + rest)[4..] == rest;
  }

  lemma FewDigits(a: Sextet, b: Sextet, c: Sextet)
    ensures Bytes([a, b]) == [First(a, b)] && Bytes([a, b, c]) == [First(a, b), Second(b, c)]
  {
  }

  lemma BytesOfGroup(x: Byte, y: Byte, z: Byte, rest: seq<Sextet>)
    ensures Bytes([High(x), Upper(x, y), Lower(y, z), Low(z)] + rest) == [x, y, z] + Bytes(rest)
  {
    FourDigits(High(x), Upper(x, y), Lower(y, z), Low(z), rest);
    DigitsBack(x, y, z);
  }

  lemma OneByteBack(x: Byte)
    ensures Bytes([High(x), Upper(x, 0)]) == [x]
  {
    FewDigits(High(x), Upper(x, 0), 0);
    DigitsBack(x, 0, 0);
  }

  lemma TwoBytesBack(x: Byte, y: Byte)
    ensures Bytes([High(x), Upper(x, y), Lower(y, 0)]) == [x, y]
  {
    FewDigits(High(x), Upper(x, y), Lower(y, 0));
    DigitsBack(x, y, 0);
  }

  lemma FewBytes(x: Byte, y: Byte)
    ensures Sextets([x]) == [High(x), Upper(x, 0)]
    ensures Sextets([x, y]) == [High(x), Upper(x, y), Lower(y, 0)]
  {
  }

  lemma {:induction false} BytesOfSextets(b: seq<Byte>)
    ensures Bytes(Sextets(b)) == b
  {
    if |b| >= 3 {
      BytesOfSextets(b[3..]);
      BytesOfGroup(b[0], b[1], b[2], Sextets(b[3..]));
      SextetsGroup(b);
      assert b == [b[0], b[1], b[2]] + b[3..];
    } else if |b| == 2 {
      assert b == [b[0], b[1]];
      FewBytes(b[0], b[1]);
      TwoBytesBack(b[0], b[1]);
    } else if |b| == 1 {
      assert b == [b[0]];
      FewBytes(b[0], 0);
      OneByteBack(b[0]);
    }
  }

  /** No stray digit, and the bits that stand for nothing are zero. */
  predicate Canonical(s: seq<Sextet>) {
    var r := |s| % 4;
    r == 0 || (r == 2 && s[|s| - 1] % 16 == 0) || (r == 3 && s[|s| - 1] % 4 == 0)
  }

  lemma GroupBack(a: Sextet, b: Sextet, c: Sextet, d: Sextet)
    ensures High(First(a, b)) == a && Upper(First(a, b), Second(b, c)) == b
    ensures Lower(Second(b, c), Third(c, d)) == c && Low(Third(c, d)) == d
    ensures Upper(First(a, b), 0) == b <==> b % 16 == 0
    ensures Lower(Second(b, c), 0) == c <==> c % 4 == 0
  {
  }

  /** Encoding what a text decodes to gives the digits back exactly for canonical digits. */
  lemma {:induction false} SextetsOfBytes(s: seq<Sextet>)
    ensures Sextets(Bytes(s)) == s <==> Canonical(s)
    decreases |s|
  {
    if |s| >= 4 {
      SextetsOfBytes(s[4..]);
      assert s[..4] == [s[0], s[1], s[2], s[3]] && s == s[..4] + s[4..];
      GroupFirst(s[0], s[1], s[2], s[3], s[4..]);
      SameExactly(s[..4], Sextets(Bytes(s[4..])), s[4..]);
      CanonicalGroup(s);
    } else {
      ShortBack(s);
    }
  }

  lemma TwoBack(a: Sextet, b: Sextet)
    ensures Sextets(Bytes([a, b])) == [a, b] <==> b % 16 == 0
  {
    GroupBack(a, b, 0, 0);
    FewDigits(a, b, 0);
    FewBytes(First(a, b), 0);
  }

  lemma ThreeBack(a: Sextet, b: Sextet, c: Sextet)
    ensures Sextets(Bytes([a, b, c])) == [a, b, c] <==> c % 4 == 0
  {
    GroupBack(a, b, c, 0);
    FewDigits(a, b, c);
    FewBytes(First(a, b), Second(b, c));
  }

  lemma OneOrNoneBack(s: seq<Sextet>)
    requires |s| < 2
    ensures Sextets(Bytes(s)) == []
  {
    assert Bytes(s) == [];
  }

  lemma ShortBack(s: seq<Sextet>)
    requires |s| < 4
    ensures Sextets(Bytes(s)) == s <==> Canonical(s)
  {
    if |s| == 2 {
      var a, b := s[0], s[1];
      Pair(s, a, b);
      TwoBack(a, b);
    } else if |s| == 3 {
      var a, b, c := s[0], s[1], s[2];
      Triple(s, a, b, c);
      ThreeBack(a, b, c);
    } else {
      OneOrNoneBack(s);
    }
  }

  lemma Pair(s: seq<Sextet>, a: Sextet, b: Sextet)
    requires |s| == 2 && s[0] == a && s[1] == b
    ensures s == [a, b] && (Canonical(s) <==> b % 16 == 0)
  {
  }

  lemma Triple(s: seq<Sextet>, a: Sextet, b: Sextet, c: Sextet)
    requires |s| == 3 && s[0] == a && s[1] == b && s[2] == c
    ensures s == [a, b, c] && (Canonical(s) <==> c % 4 == 0)
  {
  }

  lemma SameExactly(x: seq<Sextet>, y: seq<Sextet>, z: seq<Sextet>)
    ensures x + y == x + z <==> y == z
  {
    assert (x + y)[|x|..] == y && (x + z)[|x|..] == z;
  }

  lemma CanonicalGroup(s: seq<Sextet>)
    requires |s| >= 4
    ensures Canonical(s) == Canonical(s[4..])
  {
    assert |s| % 4 == |s[4..]| % 4;
  }

  lemma GroupFirst(a: Sextet, b: Sextet, c: Sextet, d: Sextet, rest: seq<Sextet>)
    ensures Sextets(Bytes([a, b, c, d] + rest)) == [a, b, c, d] + Sextets(Bytes(rest))
  {
    FourDigits(a, b, c, d, rest);
    GroupBack(a, b, c, d);
    ThreeBytes(First(a, b), Second(b, c), Third(c, d), Bytes(rest));
  }

  lemma ThreeBytes(x: Byte, y: Byte, z: Byte, rest: seq<Byte>)
    ensures Sextets([x, y, z] + rest) == [High(x), Upper(x, y), Lower(y, z), Low(z)] + Sextets(rest)
  {
    assert ([x, y, z] + rest)[3..] == rest;
  }

  // ----- the decoder as a specification

  /** The digits of a text: what is not white space, up to the first padding character. */
  function Payload(text: string): string {
    if text == "" || text[0] == '=' then ""
    else if IsSpace(text[0]) then Payload(text[1..])
    else [text[0]] + Payload(text[1..])
  }

  predicate Legal(digits: string) {
    forall i | 0 <= i < |digits| :: Value(digits[i]) >= 0
  }

  function Values(digits: string): seq<Sextet>
    requires Legal(digits)
  {
    seq(|digits|, i requires 0 <= i < |digits| => (ValueInvertsTable(digits[i]); Value(digits[i])))
  }

  function Decoded(text: string): Option<seq<Byte>> {
    if Legal(Payload(text)) then Some(Bytes(Values(Payload(text)))) else None
  }

  /** A character that is neither white space nor a digit, with no padding before it. */
  predicate Spoils(text: string, i: nat)
    requires i < |text|
  {
    !IsSpace(text[i]) && Value(text[i]) < 0 && forall j | 0 <= j <= i :: text[j] != '='
  }

  /** Decoding fails exactly for a text with a foreign character before its first padding character. */
  lemma {:induction false} FailsExactlyWhen(text: string)
    ensures Decoded(text) == None <==> exists i | 0 <= i < |text| :: Spoils(text, i)
  {
    if text != "" && text[0] != '=' {
      var rest := text[1..];
      FailsExactlyWhen(rest);
      assert forall i | 0 <= i < |rest| :: rest[i] == text[i + 1];
      forall i | 0 <= i < |rest| && Spoils(rest, i)
        ensures Spoils(text, i + 1)
      {
        assert forall j | 0 < j <= i + 1 :: text[j] == rest[j - 1];
      }
      assert forall i | 0 < i < |text| && Spoils(text, i) :: Spoils(rest, i - 1);
      if !IsSpace(text[0]) {
        LegalCons(text[0], Payload(rest));
        assert Value(text[0]) < 0 ==> Spoils(text, 0);
      } else {
        assert !Spoils(text, 0);
      }
    } else if text != "" {
      assert forall i | 0 <= i < |text| :: !Spoils(text, i);
    }
  }

  lemma LegalCons(c: char, digits: string)
    ensures Legal([c] + digits) <==> Value(c) >= 0 && Legal(digits)
  {
    if Legal([c] + digits) {
      assert ([c] + digits)[0] == c;
      assert forall i | 0 <= i < |digits| :: digits[i] == ([c] + digits)[i + 1];
    }
  }

  // ----- decoding what was encoded

  function Strip(text: string): string {
    if text == "" then "" else if IsSpace(text[0]) then Strip(text[1..]) else [text[0]] + Strip(text[1..])
  }

  lemma {:induction false} PayloadOfStrip(text: string)
    ensures Payload(text) == Payload(Strip(text))
  {
    if text != "" {
      PayloadOfStrip(text[1..]);
      if !IsSpace(text[0]) {
        assert Strip(text)[1..] == Strip(text[1..]);
      }
    }
  }

  lemma {:induction false} PayloadOfText(s: seq<Sextet>, padding: string)
    requires padding == "" || padding[0] == '='
    ensures Payload(Text(s) + padding) == Text(s)
  {
    var t := Text(s) + padding;
    if s == [] {
      assert t == padding;
    } else {
      PayloadOfText(s[1..], padding);
      assert t[1..] == Text(s[1..]) + padding;
      TableIsDigits();
      ValueInvertsTable(t[0]);
      assert t[0] == TABLE[s[0]];
    }
  }

  lemma ValuesOfText(s: seq<Sextet>)
    ensures Legal(Text(s)) && Values(Text(s)) == s
  {
    forall i | 0 <= i < |s|
      ensures Value(Text(s)[i]) == s[i]
    {
      TableIsDigits();
      ValueInvertsTable(Text(s)[i]);
      assert Text(s)[i] == TABLE[s[i]];
    }
  }

  /** White space may be put anywhere into the encoding of any bytes: decoding returns the bytes. */
  lemma RoundTrip(bytes: seq<Byte>, text: string)
    requires Strip(text) == Encoded(bytes)
    ensures Decoded(text) == Some(bytes)
  {
    PayloadOfStrip(text);
    PayloadOfText(Sextets(bytes), Padding(|bytes|));
    ValuesOfText(Sextets(bytes));
    BytesOfSextets(bytes);
  }

  // ----- the decoder in the form of the source

  /** Two's complement, 32 bits. */
  function Int32(x: int): int {
    var m := x % 0x1_0000_0000;
    if m < 0x8000_0000 then m else m - 0x1_0000_0000
  }

  /** The bits not yet written after a digit c at place r - 1 of its group, and their number plus the
      decoder's starting offset of -8. */
  predicate Holds(val: int, valb: int, r: nat, c: Sextet) {
    if r == 0 then valb == -8
    else if r == 1 then valb == -2 && val % 64 == c
    else if r == 2 then valb == -4 && val % 16 == c % 16
    else valb == -6 && val % 4 == c % 4
  }

  /** One more digit shifted in: the wrapped sum differs from the unbounded one by a multiple of 2^32. */
  function Shifted(val: int, d: Sextet): int {
    Int32(Int32(val * 64) + d)
  }

  lemma ShiftedModulo(val: int, d: Sextet) returns (m: int)
    ensures Shifted(val, d) == val * 64 + d + m * 0x1_0000_0000
  {
    var x := Int32(val * 64);
    assert x == val * 64 - (val * 64 - x) / 0x1_0000_0000 * 0x1_0000_0000;
    var y := Int32(x + d);
    assert y == x + d - (x + d - y) / 0x1_0000_0000 * 0x1_0000_0000;
    m := -((val * 64 - x) / 0x1_0000_0000) - (x + d - y) / 0x1_0000_0000;
  }

  lemma Multiple(k: int, n: int)
    requires n > 0
    ensures k >= 1 ==> k * n >= n
    ensures k <= -1 ==> k * n <= -n
  {
    if k >= 1 {
      assert (k - 1) * n >= 0;
    } else if k <= -1 {
      assert (-1 - k) * n >= 0;
    }
  }

  lemma Remainder(x: int, q: int, n: int, r: int)
    requires x == q * n + r && 0 <= r < n
    ensures x % n == r && x / n == q
  {
    var p := x / n;
    assert x == p * n + x % n;
    assert (p - q) * n == r - x % n;
    Multiple(p - q, n);
  }

  /** Whatever the wrapped upper bits hold, the low bits are those of the unbounded accumulator. */
  lemma WrapKeepsLowBits(val: int, d: Sextet)
    ensures Shifted(val, d) % 4096 == val % 64 * 64 + d
    ensures Shifted(val, d) % 1024 == val % 16 * 64 + d
    ensures Shifted(val, d) % 256 == val % 4 * 64 + d
    ensures Shifted(val, d) % 64 == d
  {
    var w := Shifted(val, d);
    var m := ShiftedModulo(val, d);
    Remainder(w, m * 0x10_0000 + val / 64, 4096, val % 64 * 64 + d);
    Remainder(w, m * 0x40_0000 + val / 16, 1024, val % 16 * 64 + d);
    Remainder(w, m * 0x100_0000 + val / 4, 256, val % 4 * 64 + d);
    Remainder(w, m * 0x400_0000 + val, 64, d);
  }

  /** One more digit completes at most one byte: which one, by its place r in the group. */
  lemma {:induction false} BytesAppend(s: seq<Sextet>, d: Sextet, n: nat, r: nat)
    requires |s| == 4 * n + r && r < 4
    ensures r == 0 ==> Bytes(s + [d]) == Bytes(s)
    ensures r == 1 ==> Bytes(s + [d]) == Bytes(s) + [First(s[|s| - 1], d)]
    ensures r == 2 ==> Bytes(s + [d]) == Bytes(s) + [Second(s[|s| - 1], d)]
    ensures r == 3 ==> Bytes(s + [d]) == Bytes(s) + [Third(s[|s| - 1], d)]
    decreases n
  {
    if n > 0 {
      BytesAppend(s[4..], d, n - 1, r);
      BytesGroup(s);
      BytesGroup(s + [d]);
      assert (s + [d])[4..] == s[4..] + [d];
    } else if r == 3 {
      BytesGroup(s + [d]);
      assert (s + [d])[4..] == [];
    }
  }

  lemma BytesGroup(s: seq<Sextet>)
    requires |s| >= 4
    ensures Bytes(s) == [First(s[0], s[1]), Second(s[1], s[2]), Third(s[2], s[3])] + Bytes(s[4..])
  {
  }

  /** The bits shifted out of the accumulator; a right shift of a negative number rounds down. */
  function Out(val: int, valb: nat): Byte {
    val / Pow2(valb) % 256
  }

  lemma OutIs(w: int)
    ensures Out(w, 4) == w % 4096 / 16 && Out(w, 2) == w % 1024 / 4 && Out(w, 0) == w % 256
    ensures w % 16 == w % 4096 % 16 && w % 4 == w % 1024 % 4
  {
    assert Pow2(4) == 16 * Pow2(0) && Pow2(2) == 4 * Pow2(0);
    var a, b := w / 4096, w / 1024;
    Remainder(w, a * 256 + w % 4096 / 16, 16, w % 4096 % 16);
    Remainder(w / 16, a, 256, w % 4096 / 16);
    Remainder(w, b * 256 + w % 1024 / 4, 4, w % 1024 % 4);
    Remainder(w / 4, b, 256, w % 1024 / 4);
  }

  /** One digit through the accumulator: the byte it completes, and the bits it leaves. */
  lemma AccumulatorStep(val: int, valb: int, r: nat, c: Sextet, d: Sextet)
    requires r < 4 && Holds(val, valb, r, c)
    ensures r == 0 ==> valb + 6 < 0 && Holds(Shifted(val, d), valb + 6, 1, d)
    ensures r == 1 ==> valb + 6 == 4 && Holds(Shifted(val, d), valb - 2, 2, d) && Out(Shifted(val, d), 4) == First(c, d)
    ensures r == 2 ==> valb + 6 == 2 && Holds(Shifted(val, d), valb - 2, 3, d) && Out(Shifted(val, d), 2) == Second(c, d)
    ensures r == 3 ==> valb + 6 == 0 && Holds(Shifted(val, d), valb - 2, 0, d) && Out(Shifted(val, d), 0) == Third(c, d)
  {
    var w := Shifted(val, d);
    WrapKeepsLowBits(val, d);
    OutIs(w);
    Emitted(c, d, val);
  }

  function LastOf(s: seq<Sextet>): Sextet {
    if s == [] then 0 else s[|s| - 1]
  }

  lemma Step(val: int, valb: int, s: seq<Sextet>, d: Sextet, w: int)
    requires Holds(val, valb, |s| % 4, LastOf(s)) && w == Shifted(val, d)
    ensures valb + 6 >= 0 ==> Holds(w, valb - 2, |s + [d]| % 4, d) && Bytes(s + [d]) == Bytes(s) + [Out(w, valb + 6)]
    ensures valb + 6 < 0 ==> Holds(w, valb + 6, |s + [d]| % 4, d) && Bytes(s + [d]) == Bytes(s)
  {
    BytesAppend(s, d, |s| / 4, |s| % 4);
    AccumulatorStep(val, valb, |s| % 4, LastOf(s), d);
    NextPlace(|s|);
  }

  lemma NextPlace(n: nat)
    ensures (n + 1) % 4 == if n % 4 == 3 then 0 else n % 4 + 1
  {
  }

  /** The byte completed by d, from the bits that the previous digit c left in the accumulator. */
  lemma Emitted(c: Sextet, d: Sextet, val: int)
    ensures val % 64 == c ==> (val % 64 * 64 + d) / 16 == First(c, d) && (val % 64 * 64 + d) % 16 == d % 16
    ensures val % 16 == c % 16 ==> (val % 16 * 64 + d) / 4 == Second(c, d) && (val % 16 * 64 + d) % 4 == d % 4
    ensures val % 4 == c % 4 ==> val % 4 * 64 + d == Third(c, d)
  {
  }

  /** The digits read so far, up to position i. */
  predicate Read(input: string, i: nat, digits: string)
    requires i <= |input|
  {
    Payload(input) == digits + Payload(input[i..]) && Legal(digits)
  }

  lemma ValuesAppend(digits: string, c: char)
    requires Legal(digits) && Value(c) >= 0
    ensures Legal(digits + [c]) && Value(c) < 64 && Values(digits + [c]) == Values(digits) + [Value(c)]
  {
    ValueInvertsTable(c);
  }

  lemma PayloadOne(text: string)
    requires text != "" && text[0] != '='
    ensures Payload(text) == (if IsSpace(text[0]) then "" else [text[0]]) + Payload(text[1..])
  {
  }

  lemma ReadSpace(input: string, i: nat, digits: string)
    requires i < |input| && Read(input, i, digits) && input[i] != '=' && IsSpace(input[i])
    ensures Read(input, i + 1, digits)
  {
    PayloadOne(input[i..]);
    assert input[i..][1..] == input[i + 1..];
  }

  /** The digits so far with one more character, whether it is a digit or not. */
  lemma ReadChar(input: string, i: nat, digits: string)
    requires i < |input| && input[i] != '=' && !IsSpace(input[i])
    requires Payload(input) == digits + Payload(input[i..])
    ensures Payload(input) == digits + [input[i]] + Payload(input[i + 1..])
  {
    PayloadOne(input[i..]);
    assert input[i..][1..] == input[i + 1..];
  }

  lemma ForeignChar(digits: string, c: char, rest: string)
    requires Value(c) < 0
    ensures !Legal(digits + [c] + rest)
  {
    assert (digits + [c] + rest)[|digits|] == c;
  }

  lemma ReadAll(input: string, i: nat, digits: string)
    requires i <= |input| && Read(input, i, digits) && (i < |input| ==> input[i] == '=')
    ensures Payload(input) == digits
  {
    assert Payload(input[i..]) == "";
  }

  /** Returns what the text stands for, or fails with an empty output. */
  method DecodeBase64(input: string) returns (ok: bool, output: seq<Byte>)
    ensures ok <==> Decoded(input).Some?
    ensures output == if ok then Decoded(input).value else []
  {
    output := [];
    var val: int, valb: int := 0, -8;
    ghost var digits: string := "";
    var i := 0;
    while i < |input| && input[i] != '='
      invariant 0 <= i <= |input| && Read(input, i, digits)
      invariant Holds(val, valb, |digits| % 4, LastOf(Values(digits))) && output == Bytes(Values(digits))
    {
      if IsSpace(input[i]) {
        ReadSpace(input, i, digits);
      } else {
        ReadChar(input, i, digits);
        var decoded := Value(input[i]);
        if decoded < 0 {
          ForeignChar(digits, input[i], Payload(input[i + 1..]));
          return false, [];
        }
        ValuesAppend(digits, input[i]);
        Step(val, valb, Values(digits), decoded, Shifted(val, decoded));
        val := Shifted(val, decoded);
        valb := valb + 6;
        if valb >= 0 {
          output := output + [Out(val, valb)];
          valb := valb - 8;
        }
        digits := digits + [input[i]];
      }
      i := i + 1;
    }
    ReadAll(input, i, digits);
    return true, output;
  }

  /** The six white space characters may stand anywhere. */
  lemma {:induction false} WhiteSpaceIsSkipped(before: string, c: char, after: string)
    requires c as int in {9, 10, 11, 12, 13, 32}
    ensures Decoded(before + [c] + after) == Decoded(before + after)
    decreases |before|
  {
    SkippedInPayload(before, c, after);
  }

  /** Any other character that is not a digit spoils the text, unless a padding character comes before it. */
  lemma ForeignCharacterFails(before: string, c: char, after: string)
    requires '=' !in before && c != '=' && c as int !in {9, 10, 11, 12, 13, 32}
    requires !('A' <= c <= 'Z') && !('a' <= c <= 'z') && !('0' <= c <= '9') && c != '+' && c != '/'
    ensures Decoded(before + [c] + after) == None
  {
    var text := before + [c] + after;
    assert text[|before|] == c && forall j | 0 <= j < |before| :: text[j] in before;
    assert Spoils(text, |before|);
    FailsExactlyWhen(text);
  }

  lemma {:induction false} SkippedInPayload(before: string, c: char, after: string)
    requires c as int in {9, 10, 11, 12, 13, 32}
    ensures Payload(before + [c] + after) == Payload(before + after)
    decreases |before|
  {
    var all, rest := before + [c] + after, before + after;
    if before == "" {
      assert all[0] == c && all[1..] == after && rest == after;
    } else {
      assert all[0] == before[0] && all[1..] == before[1..] + [c] + after;
      assert rest[0] == before[0] && rest[1..] == before[1..] + after;
      SkippedInPayload(before[1..], c, after);
    }
  }

  /** The examples of section 10 of RFC 4648, and the two digits that are no letters or numbers. */
  lemma Examples()
    ensures Encoded([]) == "" && Encoded([102]) == "Zg==" && Encoded([102, 111]) == "Zm8=" && Encoded([102, 111, 111]) == "Zm9v"
    ensures Encoded([251, 255]) == "+/8="
  {
    assert Text([25, 32]) == "Zg" && Text([25, 38, 60]) == "Zm8" && Text([25, 38, 61, 47]) == "Zm9v" && Text([62, 63, 60]) == "+/8";
    assert Sextets([102, 111, 111]) == [25, 38, 61, 47];
    assert Text([]) == "";
  }

  // ----- the two encoders

  lemma SextetsGroup(b: seq<Byte>)
    requires |b| >= 3
    ensures Sextets(b) == [High(b[0]), Upper(b[0], b[1]), Lower(b[1], b[2]), Low(b[2])] + Sextets(b[3..])
  {
  }

  /** The four characters for three bytes. */
  function Glyphs(x: Byte, y: Byte, z: Byte): string {
    [Digit(High(x)), Digit(Upper(x, y)), Digit(Lower(y, z)), Digit(Low(z))]
  }

  /** The four characters that an encoder cuts out of an integer. */
  function Four(n: int): string
    requires |TABLE| == 64
  {
    [TABLE[n / 262144 % 64], TABLE[n / 4096 % 64], TABLE[n / 64 % 64], TABLE[n % 64]]
  }

  lemma Cut(x: Byte, y: Byte, z: Byte, n: int)
    requires n == x as int * 65536 + y as int * 256 + z
    ensures n / 262144 % 64 == High(x) && n / 4096 % 64 == Upper(x, y)
    ensures n / 64 % 64 == Lower(y, z) && n % 64 == Low(z)
  {
    Remainder(n, x / 4, 262144, x % 4 * 65536 + y * 256 + z);
    Remainder(n, x * 16 + y / 16, 4096, y % 16 * 256 + z);
    Remainder(x * 16 + y / 16, x / 4, 64, Upper(x, y));
    Remainder(n, x * 1024 + y * 4 + z / 64, 64, Low(z));
    Remainder(x * 1024 + y * 4 + z / 64, x * 16 + y / 16, 64, Lower(y, z));
  }

  /** Three bytes side by side in one integer: its groups of six bits are the digits. */
  method Join(x: Byte, y: Byte, z: Byte) returns (n: int)
    ensures |TABLE| == 64 && Four(n) == Glyphs(x, y, z)
  {
    n := x as int * 65536 + y as int * 256 + z;
    TableIsDigits();
    Cut(x, y, z, n);
  }

  lemma PaddingAgain(n: nat)
    ensures Padding(n + 3) == Padding(n)
  {
    assert (n + 3) % 3 == n % 3;
  }

  lemma TextGroup(a: Sextet, b: Sextet, c: Sextet, d: Sextet, rest: seq<Sextet>)
    ensures Text([a, b, c, d] + rest) == [Digit(a), Digit(b), Digit(c), Digit(d)] + Text(rest)
  {
  }

  /** One round of an encoder. */
  lemma EncodedRound(b: seq<Byte>)
    requires |b| >= 3
    ensures Encoded(b) == Glyphs(b[0], b[1], b[2]) + Encoded(b[3..])
  {
    SextetsGroup(b);
    TextGroup(High(b[0]), Upper(b[0], b[1]), Lower(b[1], b[2]), Low(b[2]), Sextets(b[3..]));
    PaddingAgain(|b[3..]|);
  }

  lemma TextFew(a: Sextet, b: Sextet, c: Sextet)
    ensures Text([a, b]) == [Digit(a), Digit(b)] && Text([a, b, c]) == [Digit(a), Digit(b), Digit(c)]
  {
  }

  lemma GlyphsFew(x: Byte, y: Byte, z: Byte)
    ensures Glyphs(x, y, z)[..2] == [Digit(High(x)), Digit(Upper(x, y))]
    ensures Glyphs(x, y, z)[..3] == [Digit(High(x)), Digit(Upper(x, y)), Digit(Lower(y, z))]
  {
  }

  /** The last byte, or the last two. */
  lemma EncodedOne(x: Byte)
    ensures Encoded([x]) == Glyphs(x, 0, 0)[..2] + "=="
  {
    FewBytes(x, 0);
    TextFew(High(x), Upper(x, 0), 0);
    GlyphsFew(x, 0, 0);
    assert Padding(1) == "==";
  }

  lemma EncodedTwo(x: Byte, y: Byte)
    ensures Encoded([x, y]) == Glyphs(x, y, 0)[..3] + "="
  {
    FewBytes(x, y);
    TextFew(High(x), Upper(x, y), Lower(y, 0));
    GlyphsFew(x, y, 0);
    assert Padding(2) == "=";
  }

  /** What an encoder has still to write, from byte i on. */
  predicate Remains(b: seq<Byte>, i: nat, written: string) {
    i <= |b| && written + Encoded(b[i..]) == Encoded(b)
  }

  lemma RemainsRound(b: seq<Byte>, i: nat, written: string)
    requires i + 2 < |b| && Remains(b, i, written)
    ensures Remains(b, i + 3, written + Glyphs(b[i], b[i + 1], b[i + 2]))
  {
    EncodedRound(b[i..]);
    assert b[i..][3..] == b[i + 3..];
  }

  lemma RemainsTail(b: seq<Byte>, i: nat, written: string)
    requires Remains(b, i, written) && i + 2 >= |b|
    ensures i == |b| ==> written == Encoded(b)
    ensures i + 1 == |b| ==> written + Glyphs(b[i], 0, 0)[..2] + "==" == Encoded(b)
    ensures i + 2 == |b| ==> written + Glyphs(b[i], b[i + 1], 0)[..3] + "=" == Encoded(b)
  {
    if i == |b| {
      assert b[i..] == [];
      assert Sextets([]) == [] && Padding(0) == "";
    } else if i + 1 == |b| {
      assert b[i..] == [b[i]];
      EncodedOne(b[i]);
    } else {
      assert b[i..] == [b[i], b[i + 1]];
      EncodedTwo(b[i], b[i + 1]);
    }
  }

  lemma FourPushes(out: string, four: string)
    requires |four| == 4
    ensures out + [four[0]] + [four[1]] + [four[2]] + [four[3]] == out + four
    ensures out + [four[0]] + [four[1]] + [four[2]] == out + four[..3]
    ensures out + [four[0]] + [four[1]] == out + four[..2]
    ensures out + four[..2] + ['='] + ['='] == out + four[..2] + "=="
  {
  }

  /** The encoder for attachments. */
  method EncodeBase64(input: seq<Byte>) returns (output: string)
    ensures output == Encoded(input)
  {
    output := "";
    var i := 0;
    assert input[0..] == input;
    while i + 2 < |input|
      invariant Remains(input, i, output)
    {
      var n := Join(input[i], input[i + 1], input[i + 2]);
      RemainsRound(input, i, output);
      FourPushes(output, Four(n));
      output := output + [TABLE[n / 262144 % 64]];
      output := output + [TABLE[n / 4096 % 64]];
      output := output + [TABLE[n / 64 % 64]];
      output := output + [TABLE[n % 64]];
      i := i + 3;
    }
    RemainsTail(input, i, output);
    if i < |input| {
      var n := Join(input[i], if i + 1 < |input| then input[i + 1] else 0, 0);
      FourPushes(output, Four(n));
      output := output + [TABLE[n / 262144 % 64]];
      output := output + [TABLE[n / 4096 % 64]];
      output := output + [if i + 1 < |input| then TABLE[n / 64 % 64] else '='];
      output := output + ['='];
    }
  }

  /** The encoder of the WebSocket handshake: the same text for every input. */
  method HandshakeEncode(data: seq<Byte>) returns (out: string)
    ensures out == Encoded(data)
  {
    out := "";
    var i := 0;
    assert data[0..] == data;
    while i + 2 < |data|
      invariant Remains(data, i, out)
    {
      var n := Join(data[i], data[i + 1], data[i + 2]);
      RemainsRound(data, i, out);
      FourPushes(out, Four(n));
      out := out + [TABLE[n / 262144 % 64]];
      out := out + [TABLE[n / 4096 % 64]];
      out := out + [TABLE[n / 64 % 64]];
      out := out + [TABLE[n % 64]];
      i := i + 3;
    }
    RemainsTail(data, i, out);
    if i < |data| {
      var n := Join(data[i], if i + 1 < |data| then data[i + 1] else 0, 0);
      FourPushes(out, Four(n));
      out := out + [TABLE[n / 262144 % 64]];
      out := out + [TABLE[n / 4096 % 64]];
      if i + 1 < |data| {
        out := out + [TABLE[n / 64 % 64]];
        out := out + ['='];
      } else {
        out := out + ['='];
        out := out + ['='];
      }
    }
  }
}

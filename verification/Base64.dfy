/** Base64 as a shift register decodes it, against the groups of section 4 of RFC 4648. */
module Base64 {
  import opened Wrappers

  datatype Error = InvalidByte(ch: char)

  type Sextet = v: int | 0 <= v < 64
  type Byte = v: int | 0 <= v < 256

  // --- the alphabet ------------------------------------------------------------------------

  function Letter(v: Sextet): char {
    if v < 26 then ('A' as int + v) as char
    else if v < 52 then ('a' as int + v - 26) as char
    else if v < 62 then ('0' as int + v - 52) as char
    else if v == 62 then '+' else '/'
  }

  /** The place of a letter in the alphabet. */
  function Position(ch: char): Option<Sextet> {
    if 'A' <= ch <= 'Z' then Some(ch as int - 'A' as int)
    else if 'a' <= ch <= 'z' then Some(ch as int - 'a' as int + 26)
    else if '0' <= ch <= '9' then Some(ch as int - '0' as int + 52)
    else if ch == '+' then Some(62)
    else if ch == '/' then Some(63)
    else None
  }

  lemma PositionIsInverse(ch: char, v: Sextet)
    ensures Position(ch) == Some(v) <==> ch == Letter(v)
  {
  }

  predicate IsBlank(ch: char) {
    ch == '\r' || ch == '\n' || ch == ' '
  }

  lemma CapitalAt(v: nat)
    requires v < 26
    ensures "ABCDEFGHIJKLMNOPQRSTUVWXYZ"[v] == ('A' as int + v) as char
  {
  }

  lemma SmallAt(v: nat)
    requires v < 26
    ensures "abcdefghijklmnopqrstuvwxyz"[v] == ('a' as int + v) as char
  {
  }

  /** The alphabet of section 4 of RFC 4648, and the three blanks. */
  lemma AlphabetIs(v: Sextet, ch: char)
    ensures Letter(v) == ("ABCDEFGHIJKLMNOPQRSTUVWXYZ" + "abcdefghijklmnopqrstuvwxyz" + ("0123456789" + "+/"))[v]
    ensures IsBlank(ch) <==> ch as int in [10, 13, 32]
  {
    if v < 26 {
      CapitalAt(v);
    } else if v < 52 {
      SmallAt(v - 26);
    }
  }

  // --- the reference: groups of three bytes and four letters -----------------------------------

  /** The letters a text stands for: blanks skipped, up to the first '='. */
  function Letters(text: string): Result<seq<Sextet>, Error> {
    if text == "" || text[0] == '=' then Ok([])
    else if IsBlank(text[0]) then Letters(text[1..])
    else match Position(text[0])
      case None => Err(InvalidByte(text[0]))
      case Some(v) => Prepend([v], Letters(text[1..]))
  }

  function Prepend(front: seq<Sextet>, r: Result<seq<Sextet>, Error>): Result<seq<Sextet>, Error> {
    match r
    case Ok(rest) => Ok(front + rest)
    case Err(e) => Err(e)
  }

  function ByteAt(s: seq<Sextet>, i: nat): Byte
    requires 4 * (i + 1) <= 3 * |s|
  {
    var g := 4 * (i / 3);
    if i % 3 == 0 then s[g] as int * 4 + s[g + 1] / 16
    else if i % 3 == 1 then s[g + 1] as int % 16 * 16 + s[g + 2] / 4
    else s[g + 2] as int % 4 * 64 + s[g + 3]
  }

  /** The whole bytes of a run of sextets. */
  function BytesOf(s: seq<Sextet>): (r: seq<Byte>)
    ensures |r| == 3 * |s| / 4
  {
    seq(3 * |s| / 4, i requires 0 <= i < 3 * |s| / 4 => ByteAt(s, i))
  }

  function SextetAt(d: seq<Byte>, j: nat): Sextet
    requires 3 * j < 4 * |d|
  {
    var g := 3 * (j / 4);
    if j % 4 == 0 then d[g] / 4
    else if j % 4 == 1 then d[g] % 4 * 16 + (if g + 1 < |d| then d[g + 1] / 16 else 0)
    else if j % 4 == 2 then d[g + 1] % 16 * 4 + (if g + 2 < |d| then d[g + 2] / 64 else 0)
    else d[g + 2] % 64
  }

  function SextetCount(n: nat): (m: nat)
    ensures 3 * m / 4 == n && m % 4 != 1
  {
    (4 * n + 2) / 3
  }

  function SextetsOf(d: seq<Byte>): seq<Sextet> {
    seq(SextetCount(|d|), j requires 0 <= j < SextetCount(|d|) => SextetAt(d, j))
  }

  /** Section 4 of RFC 4648: four letters a group, the last one filled up with '='. */
  function Encode(d: seq<Byte>): string {
    var s := SextetsOf(d);
    Written(s) + seq((4 - |s| % 4) % 4, _ => '=')
  }

  function Written(s: seq<Sextet>): string {
    seq(|s|, j requires 0 <= j < |s| => Letter(s[j]))
  }

  function Decoded(text: string): Result<seq<Byte>, Error> {
    match Letters(text)
    case Ok(s) => Ok(BytesOf(s))
    case Err(e) => Err(e)
  }

  /** Nothing after the first '=' is looked at. */
  lemma {:induction false} PaddingEndsIt(text: string, rest: string)
    ensures Decoded(text + "=" + rest) == Decoded(text)
  {
    LettersStopAtPadding(text, rest);
  }

  lemma {:induction false} LettersStopAtPadding(text: string, rest: string)
    ensures Letters(text + "=" + rest) == Letters(text)
  {
    var s := text + "=" + rest;
    if text != "" {
      assert s[0] == text[0] && s[1..] == text[1..] + "=" + rest;
      LettersStopAtPadding(text[1..], rest);
    }
  }

  // --- the shift register ------------------------------------------------------------------------

  const WRAP := 0x1_0000_0000

  function Pow2(n: nat): (p: int)
    ensures p > 0
  {
    if n == 0 then 1 else 2 * Pow2(n - 1)
  }

  /** What the register still holds after k sextets: the low bits of the last one. */
  predicate Holds(buf: int, bits: nat, s: seq<Sextet>) {
    && 0 <= buf < WRAP
    && bits == 6 * |s| % 8
    && (|s| % 4 == 1 ==> buf % 64 == s[|s| - 1])
    && (|s| % 4 == 2 ==> buf % 16 == s[|s| - 1] % 16)
    && (|s| % 4 == 3 ==> buf % 4 == s[|s| - 1] % 4)
  }

  lemma By8(x: int, q: int, r: int)
    requires x == 8 * q + r && 0 <= r < 8
    ensures x / 8 == q && x % 8 == r
  {
  }

  lemma By4(x: int, q: int, r: int)
    requires x == 4 * q + r && 0 <= r < 4
    ensures x / 4 == q && x % 4 == r
  {
  }

  lemma By3(x: int, q: int, r: int)
    requires x == 3 * q + r && 0 <= r < 3
    ensures x / 3 == q && x % 3 == r
  {
  }

  lemma BitsOfCount(k: nat)
    ensures 6 * k % 8 == if k % 4 == 0 then 0 else if k % 4 == 1 then 6 else if k % 4 == 2 then 4 else 2
  {
    var q, r := k / 4, k % 4;
    if r == 0 {
      By8(6 * k, 3 * q, 0);
    } else if r == 1 {
      By8(6 * k, 3 * q, 6);
    } else if r == 2 {
      By8(6 * k, 3 * q + 1, 4);
    } else {
      By8(6 * k, 3 * q + 2, 2);
    }
  }

  /** Shifting six bits out of 32 loses nothing that is still needed. */
  lemma ShiftKeepsLowBits(buf: int, v: Sextet)
    requires 0 <= buf < WRAP
    ensures var r := buf * 64 % WRAP + v;
      0 <= r < WRAP && r % 64 == v && r / 64 % 64 == buf % 64
  {
    var q := buf * 64 / WRAP;
    assert WRAP == 64 * 0x400_0000;
    assert buf * 64 % WRAP == 64 * (buf - q * 0x400_0000);
    assert buf - q * 0x400_0000 == buf % 0x400_0000;
    assert buf % 0x400_0000 % 64 == buf % 64 by {
      assert buf == 64 * (0x10_0000 * (buf / 0x400_0000)) + buf % 0x400_0000;
    }
  }

  lemma Low4(x: int, v: int)
    requires 0 <= v < 4
    ensures (4 * x + v) / 4 == x && (4 * x + v) % 4 == v
  {
  }

  lemma Low16(x: int, v: int)
    requires 0 <= v < 16
    ensures (16 * x + v) / 16 == x && (16 * x + v) % 16 == v
  {
  }

  lemma Low256(x: int, v: int)
    requires 0 <= v < 256
    ensures (256 * x + v) % 256 == v
  {
  }

  /** The byte that sits above the low 4, 2 or 0 bits. */
  lemma TopByte(r: int, x: int, v: int)
    requires r == 64 * x + v && 0 <= v < 64 && 0 <= x
    ensures r / 16 % 256 == x % 64 * 4 + v / 16 && r % 16 == v % 16
    ensures r / 4 % 256 == x % 16 * 16 + v / 4 && r % 4 == v % 4
    ensures r % 256 == x % 4 * 64 + v
  {
    Low16(4 * x + v / 16, v % 16);
    Low4(16 * x + v / 4, v % 4);
    Low256(x / 64, x % 64 * 4 + v / 16);
    Low256(x / 16, x % 16 * 16 + v / 4);
    Low256(x / 4, x % 4 * 64 + v);
  }

  lemma Places(k: nat)
    ensures k % 4 == 0 ==> 3 * (k + 1) / 4 == 3 * k / 4
    ensures k % 4 != 0 ==> 3 * (k + 1) / 4 == 3 * k / 4 + 1
    ensures k % 4 != 0 ==> 3 * k / 4 % 3 == k % 4 - 1 && 4 * (3 * k / 4 / 3) == k - k % 4
    ensures (k + 1) % 4 == if k % 4 == 3 then 0 else k % 4 + 1
  {
    var q, r := k / 4, k % 4;
    if r == 0 {
      By4(3 * k, 3 * q, 0);
      By4(3 * (k + 1), 3 * q, 3);
      By4(k + 1, q, 1);
    } else {
      By4(3 * k, 3 * q + r - 1, 4 - r);
      By4(3 * (k + 1), 3 * q + r, 3 - r);
      By3(3 * q + r - 1, q, r - 1);
      By4(k + 1, if r == 3 then q + 1 else q, if r == 3 then 0 else r + 1);
    }
  }

  /** Each sextet adds six bits, and eight of them leave as soon as they are there. */
  lemma HoldsNext(buf: int, bits: nat, s: seq<Sextet>, v: Sextet)
    requires Holds(buf, bits, s)
    ensures var r := buf * 64 % WRAP + v;
      Holds(r, if bits + 6 >= 8 then bits - 2 else bits + 6, s + [v])
    ensures 3 * (|s| + 1) / 4 == 3 * |s| / 4 + if bits + 6 >= 8 then 1 else 0
  {
    var r := buf * 64 % WRAP + v;
    ShiftKeepsLowBits(buf, v);
    TopByte(r, r / 64, v);
    BitsOfCount(|s|);
    BitsOfCount(|s| + 1);
    Places(|s|);
  }

  /** The byte a new sextet completes, from the one before it. */
  lemma CompletedByte(s: seq<Sextet>, v: Sextet)
    requires |s| % 4 != 0
    ensures 4 * (3 * |s| / 4 + 1) <= 3 * |s + [v]|
    ensures ByteAt(s + [v], 3 * |s| / 4) ==
      var last := s[|s| - 1] as int;
      if |s| % 4 == 1 then last * 4 + v / 16
      else if |s| % 4 == 2 then last % 16 * 16 + v / 4
      else last % 4 * 64 + v
  {
    Places(|s|);
    assert (s + [v])[|s| - 1] == s[|s| - 1] && (s + [v])[|s|] == v;
  }

  /** Eight bits in hand: the top ones are the next whole byte. */
  lemma TakeByte(buf: int, bits: nat, s: seq<Sextet>, v: Sextet)
    requires Holds(buf, bits, s) && bits + 6 >= 8
    ensures 4 * (3 * |s| / 4 + 1) <= 3 * |s + [v]|
    ensures (buf * 64 % WRAP + v) / Pow2(bits - 2) % 256 == ByteAt(s + [v], 3 * |s| / 4)
  {
    BitsOfCount(|s|);
    CompletedByte(s, v);
    hide ByteAt;
    var r := buf * 64 % WRAP + v;
    ShiftKeepsLowBits(buf, v);
    TopByte(r, r / 64, v);
    Narrow(r / 64);
    Narrow(buf);
    assert Pow2(4) == 16 && Pow2(2) == 4 && Pow2(0) == 1;
    hide Pow2;
  }

  lemma Narrow(x: int)
    ensures x % 16 == x % 64 % 16 && x % 4 == x % 64 % 4
  {
    assert x == 16 * (4 * (x / 64)) + x % 64;
    assert x == 4 * (16 * (x / 64)) + x % 64;
  }

  lemma NextBytes(s: seq<Sextet>, v: Sextet)
    ensures 3 * |s| / 4 <= 3 * (|s| + 1) / 4 <= 3 * |s| / 4 + 1
    ensures BytesOf(s + [v])[..3 * |s| / 4] == BytesOf(s)
  {
    Places(|s|);
    var n := 3 * |s| / 4;
    forall i | 0 <= i < n ensures BytesOf(s + [v])[i] == BytesOf(s)[i] {
      assert ByteAt(s + [v], i) == ByteAt(s, i);
    }
  }

  lemma LettersStep(text: string, i: nat)
    requires i < |text|
    ensures Letters(text[i..]) ==
      if text[i] == '=' then Ok([])
      else if IsBlank(text[i]) then Letters(text[i + 1..])
      else match Position(text[i])
        case None => Err(InvalidByte(text[i]))
        case Some(v) => Prepend([v], Letters(text[i + 1..]))
  {
    assert text[i..][1..] == text[i + 1..];
  }

  lemma PrependTwice(s: seq<Sextet>, v: Sextet, r: Result<seq<Sextet>, Error>)
    ensures Prepend(s, Prepend([v], r)) == Prepend(s + [v], r)
  {
    if r.Ok? {
      assert s + ([v] + r.value) == s + [v] + r.value;
    }
  }

  method Decode(text: string) returns (r: Result<seq<Byte>, Error>)
    ensures r == Decoded(text)
  {
    var out: seq<Byte> := [];
    var buf, bits := 0, 0;
    ghost var s: seq<Sextet> := [];
    hide Letters, Pow2, Position, ByteAt, Holds;
    assert Holds(0, 0, []) by {
      EmptyHolds();
    }
    assert text[0..] == text;
    PrependNothing(Letters(text));
    var i := 0;
    while i < |text|
      invariant 0 <= i <= |text|
      invariant Letters(text) == Prepend(s, Letters(text[i..]))
      invariant Holds(buf, bits, s)
      invariant out == BytesOf(s)
    {
      LettersStep(text, i);
      var ch := text[i];
      i := i + 1;
      if IsBlank(ch) {
        continue;
      }
      if ch == '=' {
        assert s + [] == s;
        break;
      }
      var val := Position(ch);
      if val.None? {
        return Err(InvalidByte(ch));
      }
      PrependTwice(s, val.value, Letters(text[i..]));
      HoldsNext(buf, bits, s, val.value);
      if bits + 6 >= 8 {
        TakeByte(buf, bits, s, val.value);
      }
      NextBytes(s, val.value);
      ghost var longer := s + [val.value];
      buf := buf * 64 % WRAP + val.value;
      bits := bits + 6;
      if bits >= 8 {
        bits := bits - 8;
        out := out + [buf / Pow2(bits) % 256];
        assert BytesOf(longer)[|out| - 1] == ByteAt(longer, |out| - 1);
      }
      assert out == BytesOf(longer);
      s := longer;
    }
    if i == |text| {
      assert text[i..] == "" && s + [] == s;
      LettersOfNothing();
    }
    assert Letters(text) == Ok(s);
    return Ok(out);
  }

  lemma LettersOfNothing()
    ensures Letters("") == Ok([])
  {
  }

  lemma EmptyHolds()
    ensures Holds(0, 0, [])
  {
  }

  lemma PrependNothing(r: Result<seq<Sextet>, Error>)
    ensures Prepend([], r) == r
  {
    if r.Ok? {
      assert [] + r.value == r.value;
    }
  }

  // --- the bits are the bits -----------------------------------------------------------------------

  /** Bit number b, from the top, of a word of w bits. */
  function Bit(value: int, w: nat, b: nat): int
    requires b < w
  {
    value / Pow2(w - 1 - b) % 2
  }

  lemma ByteAtOfParts(s: seq<Sextet>, i: nat) returns (g: nat, k: nat)
    requires 4 * (i + 1) <= 3 * |s|
    ensures g == 4 * (i / 3) + i % 3 && k == 6 - 2 * (i % 3) && g + 1 < |s|
    ensures ByteAt(s, i) == s[g] % Pow2(k) * Pow2(8 - k) + s[g + 1] / Pow2(k - 2)
  {
    PowersOfTwo();
    hide Pow2;
    g, k := 4 * (i / 3) + i % 3, 6 - 2 * (i % 3);
  }

  /** The n-th bit of the concatenated sextets is the n-th bit of the concatenated bytes, for as
      many whole bytes as there are. */
  lemma BitsInOrder(s: seq<Sextet>, n: nat)
    requires n < 8 * |BytesOf(s)|
    ensures Bit(BytesOf(s)[n / 8], 8, n % 8) == Bit(s[n / 6], 6, n % 6)
  {
    hide Pow2, Bit, ByteAt;
    var i, b := n / 8, n % 8;
    var g, k := ByteAtOfParts(s, i);
    WhereBitIs(n);
    ByteOfParts(s[g], s[g + 1], k, b);
  }

  lemma PowersOfTwo()
    ensures Pow2(0) == 1 && Pow2(1) == 2 && Pow2(2) == 4 && Pow2(3) == 8
    ensures Pow2(4) == 16 && Pow2(5) == 32 && Pow2(6) == 64 && Pow2(7) == 128
  {
    assert Pow2(3) == 8;
    assert Pow2(5) == 32;
  }

  lemma WhereBitIs(n: nat)
    ensures var i, b := n / 8, n % 8;
      var g, k := 4 * (i / 3) + i % 3, 6 - 2 * (i % 3);
      if b < k then n / 6 == g && n % 6 == 6 - k + b else n / 6 == g + 1 && n % 6 == b - k
  {
    var i, b := n / 8, n % 8;
    assert n == 24 * (i / 3) + 8 * (i % 3) + b;
  }

  lemma PowerEight()
    ensures Pow2(8) == 256
  {
    PowersOfTwo();
  }

  predicate AreBits(c: seq<int>) {
    forall k :: 0 <= k < |c| ==> 0 <= c[k] <= 1
  }

  /** The value of bits, highest first. */
  function Value(c: seq<int>): int {
    if c == [] then 0 else 2 * Value(c[..|c| - 1]) + c[|c| - 1]
  }

  function Bits(value: int, w: nat): (c: seq<int>)
    ensures |c| == w && AreBits(c)
    decreases w
  {
    if w == 0 then [] else Bits(value / 2, w - 1) + [value % 2]
  }

  lemma {:induction false} BitsGiveValue(value: int, w: nat)
    requires 0 <= value < Pow2(w)
    ensures Value(Bits(value, w)) == value
  {
    if w > 0 {
      BitsGiveValue(value / 2, w - 1);
      assert Bits(value, w)[..w - 1] == Bits(value / 2, w - 1);
    }
  }

  lemma HalfTwice(value: int, k: nat)
    requires value >= 0
    ensures value / 2 / Pow2(k) == value / Pow2(k + 1)
  {
    var m := Pow2(k);
    var q, r := value / 2 / m, value / 2 % m;
    assert value / 2 == q * m + r;
    assert q * (2 * m) == 2 * (q * m);
    DivUnique(value, 2 * m, q, 2 * r + value % 2);
  }

  lemma Multiple(x: int, m: int)
    requires m > 0
    ensures x >= 1 ==> x * m >= m
    ensures x <= -1 ==> x * m <= -m
  {
    if x >= 1 {
      assert (x - 1) * m >= 0;
    } else if x <= -1 {
      assert (-1 - x) * m >= 0;
    }
  }

  lemma QuotientUnique(m: int, k: int, s: int, q: int, r: int)
    requires 0 <= r < m && 0 <= s < m && k * m + s == q * m + r
    ensures k == q && s == r
  {
    var x := k - q;
    assert x * m == k * m - q * m;
    Multiple(x, m);
  }

  lemma DivUnique(a: int, m: int, q: int, r: int)
    requires 0 <= r < m && a == q * m + r
    ensures a / m == q && a % m == r
  {
    QuotientUnique(m, a / m, a % m, q, r);
  }

  lemma {:induction false} BitsAreBits(value: int, w: nat, b: nat)
    requires value >= 0 && b < w
    ensures Bits(value, w)[b] == Bit(value, w, b)
  {
    if b < w - 1 {
      BitsAreBits(value / 2, w - 1, b);
      HalfTwice(value, w - 2 - b);
    } else {
      assert Pow2(0) == 1;
    }
  }

  lemma {:induction false} ValueOfJoin(c: seq<int>, d: seq<int>)
    ensures Value(c + d) == Value(c) * Pow2(|d|) + Value(d)
  {
    if d == [] {
      assert c + d == c;
    } else {
      var e := d[..|d| - 1];
      ValueOfJoin(c, e);
      assert (c + d)[..|c + d| - 1] == c + e;
      assert Value(c) * (2 * Pow2(|e|)) == 2 * (Value(c) * Pow2(|e|));
    }
  }

  lemma {:induction false} ValueBounded(c: seq<int>)
    requires AreBits(c)
    ensures 0 <= Value(c) < Pow2(|c|)
  {
    if c != [] {
      ValueBounded(c[..|c| - 1]);
    }
  }

  lemma {:induction false} ValueInjective(c: seq<int>, d: seq<int>)
    requires AreBits(c) && AreBits(d) && |c| == |d| && Value(c) == Value(d)
    ensures c == d
  {
    if c != [] {
      var n := |c| - 1;
      ValueInjective(c[..n], d[..n]);
      assert c == c[..n] + [c[n]] && d == d[..n] + [d[n]];
    }
  }

  /** The upper and the lower part of a sextet, each by its bits. */
  lemma SextetParts(x: Sextet, k: nat) returns (high: seq<int>, low: seq<int>)
    requires k <= 6
    ensures Bits(x, 6) == high + low && |low| == k && |high| == 6 - k && AreBits(high) && AreBits(low)
    ensures x / Pow2(k) == Value(high) && x % Pow2(k) == Value(low)
  {
    hide Pow2, Value, Bits;
    PowersOfTwo();
    BitsGiveValue(x, 6);
    var c := Bits(x, 6);
    high, low := c[..6 - k], c[6 - k..];
    assert c == high + low;
    ValueOfJoin(high, low);
    ValueBounded(low);
    DivUnique(x, Pow2(k), Value(high), Value(low));
  }

  /** A byte made of the low bits of one sextet and the high bits of the next. */
  lemma ByteOfParts(x: Sextet, y: Sextet, k: nat, b: nat)
    requires 2 <= k <= 6 && b < 8
    ensures 0 <= x % Pow2(k) * Pow2(8 - k) + y / Pow2(k - 2) < 256
    ensures Bit(x % Pow2(k) * Pow2(8 - k) + y / Pow2(k - 2), 8, b)
         == if b < k then Bit(x, 6, 6 - k + b) else Bit(y, 6, b - k)
  {
    hide Pow2, Value, Bits, Bit;
    var h, low := SextetParts(x, k);
    var high, l := SextetParts(y, k - 2);
    var c := low + high;
    ValueOfJoin(low, high);
    ValueBounded(c);
    PowerEight();
    var byte := Value(c);
    BitsGiveValue(byte, 8);
    ValueInjective(c, Bits(byte, 8));
    BitsAreBits(byte, 8, b);
    BitsAreBits(x, 6, if b < k then 6 - k + b else 0);
    BitsAreBits(y, 6, if b < k then 0 else b - k);
  }

  // --- decoding undoes encoding -----------------------------------------------------------------------

  function Stripped(text: string): string {
    if text == "" then ""
    else if IsBlank(text[0]) then Stripped(text[1..])
    else [text[0]] + Stripped(text[1..])
  }

  /** Blanks may stand anywhere. */
  lemma {:induction false} BlanksDoNotMatter(text: string)
    ensures Letters(text) == Letters(Stripped(text))
  {
    if text != "" {
      BlanksDoNotMatter(text[1..]);
      if !IsBlank(text[0]) {
        assert Stripped(text)[1..] == Stripped(text[1..]);
      }
    }
  }

  lemma LetterStands(v: Sextet)
    ensures Position(Letter(v)) == Some(v) && Letter(v) != '=' && !IsBlank(Letter(v))
  {
  }

  lemma {:induction false} LettersOfWritten(s: seq<Sextet>, padding: string)
    requires padding == "" || padding[0] == '='
    ensures Letters(Written(s) + padding) == Ok(s)
    decreases |s|
  {
    var text := Written(s) + padding;
    if s == [] {
      assert text == padding;
    } else {
      LettersOfWritten(s[1..], padding);
      LetterStands(s[0]);
      hide Letter, Position, IsBlank;
      assert Written(s)[0] == Letter(s[0]);
      assert text[1..] == Written(s[1..]) + padding;
      assert [s[0]] + s[1..] == s;
    }
  }

  lemma BytesOfSextets(d: seq<Byte>)
    ensures BytesOf(SextetsOf(d)) == d
  {
    forall i | 0 <= i < |d| ensures BytesOf(SextetsOf(d))[i] == d[i] {
      ByteComesBack(d, i);
    }
  }

  lemma GroupOfSextets(d: seq<Byte>, q: nat)
    ensures 3 * q < |d| ==> SextetAt(d, 4 * q) == d[3 * q] / 4
    ensures 3 * q < |d| ==> SextetAt(d, 4 * q + 1) / 16 == d[3 * q] % 4
    ensures 3 * q + 1 < |d| ==> SextetAt(d, 4 * q + 1) % 16 == d[3 * q + 1] / 16
    ensures 3 * q + 1 < |d| ==> SextetAt(d, 4 * q + 2) / 4 == d[3 * q + 1] % 16
    ensures 3 * q + 2 < |d| ==> SextetAt(d, 4 * q + 2) % 4 == d[3 * q + 2] / 64
    ensures 3 * q + 2 < |d| ==> SextetAt(d, 4 * q + 3) == d[3 * q + 2] % 64
  {
  }

  lemma EnoughSextets(d: seq<Byte>, i: nat)
    requires i < |d|
    ensures 4 * (i + 1) <= 3 * |SextetsOf(d)|
    ensures 3 * (4 * (i / 3) + i % 3 + 1) < 4 * |d|
  {
    assert i == 3 * (i / 3) + i % 3;
  }

  lemma SextetsAre(d: seq<Byte>, j: nat)
    requires 3 * j < 4 * |d|
    ensures j < |SextetsOf(d)| && SextetsOf(d)[j] == SextetAt(d, j)
  {
    hide SextetAt;
  }

  lemma ByteInGroup(s: seq<Sextet>, q: nat, r: nat)
    requires r < 3 && 4 * (3 * q + r + 1) <= 3 * |s|
    ensures 4 * q + r + 1 < |s|
    ensures ByteAt(s, 3 * q + r) ==
      var x, y := s[4 * q + r] as int, s[4 * q + r + 1] as int;
      if r == 0 then x * 4 + y / 16 else if r == 1 then x % 16 * 16 + y / 4 else x % 4 * 64 + y
  {
    assert (3 * q + r) / 3 == q && (3 * q + r) % 3 == r;
  }

  lemma ByteComesBack(d: seq<Byte>, i: nat)
    requires i < |d|
    ensures 4 * (i + 1) <= 3 * |SextetsOf(d)|
    ensures ByteAt(SextetsOf(d), i) == d[i]
  {
    hide SextetAt, SextetsOf, SextetCount, ByteAt;
    var q, r := i / 3, i % 3;
    EnoughSextets(d, i);
    SextetsAre(d, 4 * q + r);
    SextetsAre(d, 4 * q + r + 1);
    ByteInGroup(SextetsOf(d), q, r);
    GroupOfSextets(d, q);
  }

  /** Whatever blanks a text has in it, if the rest encodes d then it decodes to d. */
  lemma DecodeOfEncode(d: seq<Byte>, text: string)
    requires Stripped(text) == Encode(d)
    ensures Decoded(text) == Ok(d)
  {
    hide Letters, SextetsOf, BytesOf, Stripped, Letter, Written;
    var s := SextetsOf(d);
    var padding := seq((4 - |s| % 4) % 4, _ => '=');
    EncodeIsWritten(d, padding);
    BlanksDoNotMatter(text);
    LettersOfWritten(s, padding);
    BytesOfSextets(d);
    hide Encode;
  }

  lemma EncodeIsWritten(d: seq<Byte>, padding: string)
    requires padding == seq((4 - |SextetsOf(d)| % 4) % 4, _ => '=')
    ensures Encode(d) == Written(SextetsOf(d)) + padding
  {
  }
}

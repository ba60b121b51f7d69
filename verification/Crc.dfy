/** A table-driven CRC-32 and the serial shift register it stands for. */
module Crc {
  const POLY: bv32 := 0xEDB8_8320

  // Named so that proofs about the register can treat the word operations as opaque.

  function Xor(x: bv32, y: bv32): bv32 {
    x ^ y
  }

  function Half(x: bv32): bv32 {
    x >> 1
  }

  function LowBit(x: bv32): bool {
    x & 1 != 0
  }

  function LowByte(x: bv32): bv32 {
    x & 0xFF
  }

  function DropLowByte(x: bv32): bv32 {
    x >> 8
  }

  function Mix(carry: bool, x: bv32): bv32 {
    if carry then Xor(x, POLY) else x
  }

  /** One step of the reflected register with no data bit coming in. */
  function BitStep(crc: bv32): bv32 {
    Mix(LowBit(crc), Half(crc))
  }

  function Steps(n: nat, crc: bv32): bv32 {
    if n == 0 then crc else BitStep(Steps(n - 1, crc))
  }

  // --- the reference: a register fed one bit at a time, low bit of each byte first ----------

  function FeedBit(crc: bv32, bit: bool): bv32 {
    Mix(LowBit(crc) != bit, Half(crc))
  }

  function DropBits(w: bv32, n: nat): bv32 {
    if n == 0 then w else Half(DropBits(w, n - 1))
  }

  /** The register after the low n bits of w. */
  function FeedBits(crc: bv32, w: bv32, n: nat): bv32 {
    if n == 0 then crc else FeedBit(FeedBits(crc, w, n - 1), LowBit(DropBits(w, n - 1)))
  }

  function Serial(crc: bv32, data: seq<bv8>): bv32 {
    if data == [] then crc
    else FeedBits(Serial(crc, data[..|data| - 1]), data[|data| - 1] as bv32, 8)
  }

  // --- the bit step is linear -----------------------------------------------------------------

  lemma LowBitXor(x: bv32, y: bv32)
    ensures LowBit(Xor(x, y)) == (LowBit(x) != LowBit(y))
  {
  }

  lemma HalfXor(x: bv32, y: bv32)
    ensures Half(Xor(x, y)) == Xor(Half(x), Half(y))
  {
  }

  lemma XorSwap(u: bv32, v: bv32)
    ensures Xor(u, v) == Xor(v, u)
  {
  }

  lemma XorRight(u: bv32, v: bv32, p: bv32)
    ensures Xor(u, Xor(v, p)) == Xor(Xor(u, v), p)
  {
  }

  lemma XorLeft(u: bv32, v: bv32, p: bv32)
    ensures Xor(Xor(u, p), v) == Xor(Xor(u, v), p)
  {
    hide Xor;
    XorSwap(Xor(u, p), v);
    XorRight(v, u, p);
    XorSwap(v, u);
  }

  lemma XorTwice(x: bv32, w: bv32)
    ensures Xor(Xor(x, w), w) == x
  {
  }

  lemma XorBoth(u: bv32, v: bv32, p: bv32)
    ensures Xor(Xor(u, p), Xor(v, p)) == Xor(u, v)
  {
    hide Xor;
    XorRight(Xor(u, p), v, p);
    XorLeft(u, v, p);
    XorTwice(Xor(u, v), p);
  }

  lemma MixXor(c: bool, d: bool, x: bv32, y: bv32)
    ensures Mix(c != d, Xor(x, y)) == Xor(Mix(c, x), Mix(d, y))
  {
    hide Xor;
    XorBoth(x, y, POLY);
    XorLeft(x, y, POLY);
    XorRight(x, y, POLY);
  }

  lemma BitStepLinear(x: bv32, y: bv32)
    ensures BitStep(Xor(x, y)) == Xor(BitStep(x), BitStep(y))
  {
    hide Xor, Half, LowBit, Mix;
    LowBitXor(x, y);
    HalfXor(x, y);
    MixXor(LowBit(x), LowBit(y), Half(x), Half(y));
  }

  lemma {:induction false} StepsLinear(n: nat, x: bv32, y: bv32)
    ensures Steps(n, Xor(x, y)) == Xor(Steps(n, x), Steps(n, y))
  {
    hide BitStep, Xor;
    if n > 0 {
      StepsLinear(n - 1, x, y);
      BitStepLinear(Steps(n - 1, x), Steps(n - 1, y));
    }
  }

  // --- eight steps at once -----------------------------------------------------------------

  /** A bit of data fed in acts as if it already stood in the register. */
  lemma FeedBitIsStep(x: bv32, w: bv32)
    ensures FeedBit(x, LowBit(w)) == Xor(BitStep(Xor(x, w)), Half(w))
  {
    hide Xor, Half, LowBit, Mix;
    LowBitXor(x, w);
    HalfXor(x, w);
    MixXor(LowBit(x) != LowBit(w), false, Half(x), Half(w));
    assert Mix(false, Half(w)) == Half(w) by {
      NoMix(Half(w));
    }
    XorTwice(Mix(LowBit(x) != LowBit(w), Half(x)), Half(w));
  }

  lemma NoMix(x: bv32)
    ensures Mix(false, x) == x
  {
  }

  lemma {:induction false} FeedBitsIsSteps(crc: bv32, w: bv32, n: nat)
    ensures FeedBits(crc, w, n) == Xor(Steps(n, Xor(crc, w)), DropBits(w, n))
  {
    hide FeedBit, BitStep, Xor, Half, LowBit;
    if n == 0 {
      XorTwice(crc, w);
    } else {
      var x, rest := FeedBits(crc, w, n - 1), DropBits(w, n - 1);
      FeedBitsIsSteps(crc, w, n - 1);
      XorTwice(Steps(n - 1, Xor(crc, w)), rest);
      FeedBitIsStep(x, rest);
    }
  }

  /** The low n bits of w are clear. */
  lemma {:induction false} StepsOfZeroBits(w: bv32, n: nat)
    requires forall k: nat :: k < n ==> !LowBit(DropBits(w, k))
    ensures Steps(n, w) == DropBits(w, n)
  {
    if n > 0 {
      StepsOfZeroBits(w, n - 1);
      hide Half, LowBit, Xor;
    }
  }

  lemma DropFour(w: bv32)
    ensures DropBits(w, 1) == w >> 1 && DropBits(w, 2) == w >> 2 && DropBits(w, 3) == w >> 3 && DropBits(w, 4) == w >> 4
  {
    assert DropBits(w, 1) == w >> 1;
    assert DropBits(w, 2) == w >> 2;
    assert DropBits(w, 3) == w >> 3;
  }

  lemma DropByte(w: bv32)
    ensures DropBits(w, 5) == w >> 5 && DropBits(w, 6) == w >> 6 && DropBits(w, 7) == w >> 7 && DropBits(w, 8) == w >> 8
  {
    DropFour(w);
    assert DropBits(w, 5) == w >> 5;
    assert DropBits(w, 6) == w >> 6;
    assert DropBits(w, 7) == w >> 7;
  }

  lemma ZeroBits(w: bv32, k: nat)
    requires w & 0xFF == 0 && k < 8
    ensures !LowBit(DropBits(w, k))
  {
    assert (w >> 1) & 1 == 0 && (w >> 2) & 1 == 0 && (w >> 3) & 1 == 0 && (w >> 4) & 1 == 0;
    assert (w >> 5) & 1 == 0 && (w >> 6) & 1 == 0 && (w >> 7) & 1 == 0 && w & 1 == 0;
    DropFour(w);
    DropByte(w);
    assert DropBits(w, 0) == w;
    hide DropBits;
    if k < 4 {
      if k == 0 {} else if k == 1 {} else if k == 2 {} else {}
    } else if k == 4 {} else if k == 5 {} else if k == 6 {} else {}
  }

  lemma StepsOfShift(w: bv32)
    requires w & 0xFF == 0
    ensures Steps(8, w) == w >> 8
  {
    forall k: nat | k < 8 ensures !LowBit(DropBits(w, k)) {
      ZeroBits(w, k);
    }
    StepsOfZeroBits(w, 8);
    DropByte(w);
    hide Steps, DropBits;
  }

  lemma XorZero(x: bv32)
    ensures Xor(x, 0) == x
  {
  }

  /** Eight data bits, low one first, are eight plain steps of the register with the byte put in. */
  lemma FeedByte(crc: bv32, byte: bv8)
    ensures FeedBits(crc, byte as bv32, 8) == Steps(8, Xor(crc, byte as bv32))
  {
    var w := byte as bv32;
    FeedBitsIsSteps(crc, w, 8);
    DropByte(w);
    assert w >> 8 == 0;
    XorZero(Steps(8, Xor(crc, w)));
    hide Steps, FeedBits, Xor, DropBits;
  }

  lemma SplitLowByte(x: bv32)
    ensures x == Xor(x & 0xFFFF_FF00, LowByte(x))
    ensures (x & 0xFFFF_FF00) >> 8 == DropLowByte(x)
    ensures (x & 0xFFFF_FF00) & 0xFF == 0
  {
  }

  /** The table look-up: eight steps are a shift by a byte and a correction that depends on the
      low byte only. */
  lemma StepsByTable(crc: bv32)
    ensures Steps(8, crc) == Xor(DropLowByte(crc), Steps(8, LowByte(crc)))
  {
    SplitLowByte(crc);
    StepsLinear(8, crc & 0xFFFF_FF00, LowByte(crc));
    StepsOfShift(crc & 0xFFFF_FF00);
    hide Steps, Xor, LowByte, DropLowByte;
  }

  // --- the table and the running checksum ------------------------------------------------------

  function Word(i: int): bv32
    requires 0 <= i < 256
  {
    i as bv32
  }

  ghost predicate IsTable(table: seq<bv32>) {
    |table| == 256 && forall i :: 0 <= i < 256 ==> table[i] == Steps(8, Word(i))
  }

  lemma StepInPlace(crc: bv32)
    ensures (if crc & 1 != 0 then (crc >> 1) ^ POLY else crc >> 1) == BitStep(crc)
  {
  }

  method BuildTable() returns (table: seq<bv32>)
    ensures IsTable(table)
  {
    hide BitStep, Word;
    var entries := new bv32[256];
    var i := 0;
    while i < 256
      invariant 0 <= i <= 256
      invariant forall j :: 0 <= j < i ==> entries[j] == Steps(8, Word(j))
    {
      var crc := Word(i);
      var bit := 0;
      while bit < 8
        modifies {}
        invariant 0 <= bit <= 8 && crc == Steps(bit, Word(i))
      {
        StepInPlace(crc);
        crc := if crc & 1 != 0 then (crc >> 1) ^ POLY else crc >> 1;
        bit := bit + 1;
      }
      assert crc == Steps(8, Word(i));
      entries[i] := crc;
      i := i + 1;
    }
    table := entries[..];
  }

  function Index(crc: bv32, byte: bv8): (i: int)
    ensures 0 <= i < 256
  {
    LowByte(Xor(crc, byte as bv32)) as int
  }

  lemma WordOfLowByte(x: bv32)
    ensures LowByte(x) as int < 256 && Word(LowByte(x) as int) == LowByte(x)
  {
  }

  lemma DropLowByteXor(crc: bv32, byte: bv8)
    ensures DropLowByte(Xor(crc, byte as bv32)) == DropLowByte(crc)
  {
  }

  /** A byte of data through the table. */
  lemma TableByte(table: seq<bv32>, crc: bv32, byte: bv8)
    requires IsTable(table)
    ensures Xor(DropLowByte(crc), table[Index(crc, byte)]) == FeedBits(crc, byte as bv32, 8)
  {
    hide Steps, FeedBits, Word, Xor, LowByte, DropLowByte;
    var index := Index(crc, byte);
    assert table[index] == Steps(8, Word(index));
    WordOfLowByte(Xor(crc, byte as bv32));
    FeedByte(crc, byte);
    StepsByTable(Xor(crc, byte as bv32));
    DropLowByteXor(crc, byte);
  }

  class Crc32 {
    const table: seq<bv32>
    var state: bv32

    ghost predicate Valid() {
      IsTable(table)
    }

    constructor ()
      ensures Valid() && state == 0xFFFF_FFFF
    {
      var built := BuildTable();
      table := built;
      state := 0xFFFF_FFFF;
    }

    /** The register moves on as if every bit of the data had been fed to it in turn. */
    method Update(data: seq<bv8>)
      requires Valid()
      modifies `state
      ensures state == Serial(old(state), data)
    {
      hide FeedBits, Index, Xor, DropLowByte;
      var crc := state;
      for i := 0 to |data|
        invariant crc == Serial(old(state), data[..i])
      {
        TableByte(table, crc, data[i]);
        assert data[..i + 1][..i] == data[..i];
        crc := Xor(DropLowByte(crc), table[Index(crc, data[i])]);
      }
      assert data[..|data|] == data;
      state := crc;
    }

    method Finalize() returns (sum: bv32)
      ensures sum == state ^ 0xFFFF_FFFF
    {
      sum := state ^ 0xFFFF_FFFF;
    }
  }

  method Compute(data: seq<bv8>) returns (sum: bv32)
    ensures sum == Serial(0xFFFF_FFFF, data) ^ 0xFFFF_FFFF
  {
    var crc := new Crc32();
    crc.Update(data);
    sum := crc.Finalize();
  }

  /** Feeding data in pieces is feeding it whole. */
  lemma {:induction false} SerialSplits(crc: bv32, a: seq<bv8>, b: seq<bv8>)
    ensures Serial(crc, a + b) == Serial(Serial(crc, a), b)
  {
    hide FeedBits;
    if b == [] {
      assert a + b == a;
    } else {
      SerialSplits(crc, a, b[..|b| - 1]);
      assert (a + b)[..|a + b| - 1] == a + b[..|b| - 1];
    }
  }

  // --- what it detects ----------------------------------------------------------------------------

  lemma XorCancels(u: bv32, v: bv32, p: bv32)
    requires Xor(u, p) == Xor(v, p)
    ensures u == v
  {
    hide Xor;
    XorTwice(u, p);
    XorTwice(v, p);
  }

  lemma BitStepInjective(x: bv32, y: bv32)
    requires BitStep(x) == BitStep(y)
    ensures x == y
  {
  }

  // Bit by bit, so that damage may begin and end inside a byte.

  function FeedAll(crc: bv32, bits: seq<bool>): bv32 {
    if bits == [] then crc else FeedBit(FeedAll(crc, bits[..|bits| - 1]), bits[|bits| - 1])
  }

  /** The low n bits of w, lowest first. */
  function LowBits(w: bv32, n: nat): (bits: seq<bool>)
    ensures |bits| == n
  {
    seq(n, k requires 0 <= k < n => LowBit(DropBits(w, k)))
  }

  /** Data as the register sees it: each byte's bits, lowest first. */
  function BitsOf(data: seq<bv8>): (bits: seq<bool>)
    ensures |bits| == 8 * |data|
  {
    if data == [] then [] else BitsOf(data[..|data| - 1]) + LowBits(data[|data| - 1] as bv32, 8)
  }

  lemma {:induction false} FeedAllSplits(crc: bv32, a: seq<bool>, b: seq<bool>)
    ensures FeedAll(crc, a + b) == FeedAll(FeedAll(crc, a), b)
  {
    hide FeedBit;
    if b == [] {
      assert a + b == a;
    } else {
      FeedAllSplits(crc, a, b[..|b| - 1]);
      assert (a + b)[..|a + b| - 1] == a + b[..|b| - 1];
    }
  }

  lemma {:induction false} FeedAllLowBits(crc: bv32, w: bv32, n: nat)
    ensures FeedAll(crc, LowBits(w, n)) == FeedBits(crc, w, n)
  {
    hide FeedBit, LowBit, DropBits;
    if n > 0 {
      FeedAllLowBits(crc, w, n - 1);
      assert LowBits(w, n)[..n - 1] == LowBits(w, n - 1);
    }
  }

  lemma {:induction false} SerialIsFeedAll(crc: bv32, data: seq<bv8>)
    ensures Serial(crc, data) == FeedAll(crc, BitsOf(data))
  {
    hide FeedBits, FeedAll, LowBits;
    if data != [] {
      var before, w := data[..|data| - 1], data[|data| - 1] as bv32;
      SerialIsFeedAll(crc, before);
      FeedAllSplits(crc, BitsOf(before), LowBits(w, 8));
      FeedAllLowBits(Serial(crc, before), w, 8);
    } else {
      FeedNothing(crc);
    }
  }

  lemma FeedNothing(crc: bv32)
    ensures FeedAll(crc, []) == crc
  {
  }

  /** A data bit as a word. */
  function Unit(bit: bool): bv32 {
    if bit then 1 else 0
  }

  lemma UnitParts(bit: bool)
    ensures LowBit(Unit(bit)) == bit && Half(Unit(bit)) == 0
  {
  }

  lemma FeedBitIsUnit(crc: bv32, bit: bool)
    ensures FeedBit(crc, bit) == BitStep(Xor(crc, Unit(bit)))
  {
    hide Xor, Half, LowBit, Mix, Unit;
    UnitParts(bit);
    LowBitXor(crc, Unit(bit));
    HalfXor(crc, Unit(bit));
    XorZero(Half(crc));
  }

  lemma FeedBitInjective(x: bv32, y: bv32, bit: bool)
    requires FeedBit(x, bit) == FeedBit(y, bit)
    ensures x == y
  {
    hide FeedBit, BitStep, Xor, Unit;
    FeedBitIsUnit(x, bit);
    FeedBitIsUnit(y, bit);
    BitStepInjective(Xor(x, Unit(bit)), Xor(y, Unit(bit)));
    XorCancels(x, y, Unit(bit));
  }

  /** Two states that differ stay different under the same bits. */
  lemma {:induction false} FeedAllInjective(x: bv32, y: bv32, bits: seq<bool>)
    requires FeedAll(x, bits) == FeedAll(y, bits)
    ensures x == y
  {
    hide FeedBit;
    if bits != [] {
      var before, last := bits[..|bits| - 1], bits[|bits| - 1];
      FeedBitInjective(FeedAll(x, before), FeedAll(y, before), last);
      FeedAllInjective(x, y, before);
    }
  }

  /** Two states that differ stay different under the same data. */
  lemma SerialInjective(x: bv32, y: bv32, data: seq<bv8>)
    requires Serial(x, data) == Serial(y, data)
    ensures x == y
  {
    hide Serial, FeedAll, BitsOf;
    SerialIsFeedAll(x, data);
    SerialIsFeedAll(y, data);
    FeedAllInjective(x, y, BitsOf(data));
  }

  // How far apart two states can be that n more bits each bring together.

  lemma {:induction false} DropHalf(w: bv32, n: nat)
    ensures DropBits(Half(w), n) == DropBits(w, n + 1)
  {
    hide Half;
    if n > 0 {
      DropHalf(w, n - 1);
    } else {
      assert DropBits(w, 1) == Half(DropBits(w, 0));
    }
  }

  lemma {:induction false} DropZero(n: nat)
    ensures DropBits(0, n) == 0
  {
    if n > 0 {
      DropZero(n - 1);
    }
  }

  lemma {:induction false} DropMore(w: bv32, n: nat, m: nat)
    requires n <= m && DropBits(w, n) == 0
    ensures DropBits(w, m) == 0
  {
    if n < m {
      DropMore(w, n, m - 1);
      assert Half(0) == 0;
      hide Half;
    }
  }

  lemma {:induction false} DropAdd(w: bv32, n: nat, m: nat)
    ensures DropBits(DropBits(w, n), m) == DropBits(w, n + m)
  {
    hide Half;
    if m > 0 {
      DropAdd(w, n, m - 1);
    }
  }

  lemma ShiftsAdd(w: bv32)
    ensures (w >> 8) >> 8 == w >> 16 && (w >> 16) >> 8 == w >> 24 && (w >> 24) >> 7 == w >> 31
  {
  }

  lemma DropTwoBytes(w: bv32)
    ensures DropBits(w, 16) == w >> 16
  {
    hide DropBits;
    ShiftsAdd(w);
    DropByte(w);
    DropByte(w >> 8);
    DropAdd(w, 8, 8);
  }

  lemma TopBitLast(w: bv32)
    ensures DropBits(w, 31) == w >> 31
  {
    hide DropBits;
    ShiftsAdd(w);
    DropTwoBytes(w);
    DropByte(w >> 16);
    DropAdd(w, 16, 8);
    DropByte(w >> 24);
    DropAdd(w, 24, 7);
  }

  lemma TopClear(w: bv32, n: nat)
    requires n <= 31 && DropBits(w, n) == 0
    ensures w < 0x8000_0000
  {
    hide DropBits;
    DropMore(w, n, 31);
    TopBitLast(w);
    assert w >> 31 == 0;
  }

  /** The polynomial has its top bit set, so a step whose result has not carried nothing. */
  lemma UncarriedStep(z: bv32)
    requires BitStep(z) < 0x8000_0000
    ensures !LowBit(z) && BitStep(z) == Half(z)
  {
  }

  lemma FeedBitsDiffer(x: bv32, b: bool, y: bv32, c: bool)
    ensures Xor(FeedBit(x, b), FeedBit(y, c)) == BitStep(Xor(Xor(x, y), Unit(b != c)))
  {
    hide FeedBit, BitStep, Xor, Unit;
    FeedBitIsUnit(x, b);
    FeedBitIsUnit(y, c);
    BitStepLinear(Xor(x, Unit(b)), Xor(y, Unit(c)));
    XorSwap(y, Unit(c));
    XorRight(Xor(x, Unit(b)), y, Unit(c));
    XorLeft(x, y, Unit(b));
    XorRight(Xor(x, y), Unit(b), Unit(c));
    UnitsXor(b, c);
  }

  lemma UnitsXor(b: bool, c: bool)
    ensures Xor(Unit(b), Unit(c)) == Unit(b != c)
  {
  }

  lemma LowestBitOnly(d: bv32, bit: bool)
    ensures Half(Xor(d, Unit(bit))) == Half(d)
    ensures LowBit(Xor(d, Unit(bit))) == (LowBit(d) != bit)
  {
  }

  lemma XorSelf(x: bv32)
    ensures Xor(x, x) == 0
  {
  }

  /** If n more bits each, at most 32, bring two states together, the states differ in their low
      n bits only. */
  lemma {:induction false} MergingStatesAreNear(x: bv32, y: bv32, m: seq<bool>, n: seq<bool>)
    requires |m| == |n| <= 32 && FeedAll(x, m) == FeedAll(y, n)
    ensures DropBits(Xor(x, y), |m|) == 0
    decreases |m|
  {
    hide FeedBit, BitStep, Xor, Unit, Half, LowBit;
    if m == [] {
      XorSelf(x);
      assert DropBits(Xor(x, y), 0) == Xor(x, y);
    } else {
      var k := |m| - 1;
      FirstBit(x, m);
      FirstBit(y, n);
      MergingStatesAreNear(FeedBit(x, m[0]), FeedBit(y, n[0]), m[1..], n[1..]);
      NearBefore(x, m[0], y, n[0], k);
    }
  }

  lemma FirstBit(x: bv32, m: seq<bool>)
    requires m != []
    ensures FeedAll(x, m) == FeedAll(FeedBit(x, m[0]), m[1..])
  {
    hide FeedBit;
    FeedAllSplits(x, [m[0]], m[1..]);
    assert [m[0]] + m[1..] == m && [m[0]][..0] == [];
    assert FeedAll(x, [m[0]]) == FeedBit(FeedAll(x, []), m[0]);
  }

  lemma NearBefore(x: bv32, b: bool, y: bv32, c: bool, k: nat)
    requires k <= 31 && DropBits(Xor(FeedBit(x, b), FeedBit(y, c)), k) == 0
    ensures DropBits(Xor(x, y), k + 1) == 0
    ensures x == y ==> b == c
  {
    hide FeedBit, BitStep, Xor, Unit, Half, LowBit, DropBits;
    var d := Xor(x, y);
    var z := Xor(d, Unit(b != c));
    FeedBitsDiffer(x, b, y, c);
    TopClear(BitStep(z), k);
    UncarriedStep(z);
    LowestBitOnly(d, b != c);
    DropHalf(d, k);
    XorSelf(x);
    ZeroLowBit();
  }

  lemma ZeroLowBit()
    ensures !LowBit(0)
  {
  }

  /** From one state, different runs of at most 32 bits lead to different states. */
  lemma {:induction false} ShortRunsDiffer(x: bv32, m: seq<bool>, n: seq<bool>)
    requires |m| == |n| <= 32 && FeedAll(x, m) == FeedAll(x, n)
    ensures m == n
    decreases |m|
  {
    hide FeedBit, DropBits, Xor;
    if m != [] {
      FirstBit(x, m);
      FirstBit(x, n);
      MergingStatesAreNear(FeedBit(x, m[0]), FeedBit(x, n[0]), m[1..], n[1..]);
      NearBefore(x, m[0], x, n[0], |m| - 1);
      ShortRunsDiffer(FeedBit(x, m[0]), m[1..], n[1..]);
      assert m == [m[0]] + m[1..] && n == [n[0]] + n[1..];
    }
  }

  /** Damage confined to 32 consecutive bits, at any bit offset, always changes the checksum. */
  lemma DetectsBursts(crc: bv32, sent: seq<bv8>, got: seq<bv8>, before: seq<bool>, m: seq<bool>, n: seq<bool>, after: seq<bool>)
    requires BitsOf(sent) == before + m + after && BitsOf(got) == before + n + after
    requires |m| == |n| <= 32 && m != n
    ensures Serial(crc, sent) != Serial(crc, got)
  {
    if Serial(crc, sent) == Serial(crc, got) {
      hide Serial, FeedAll, BitsOf;
      SerialIsFeedAll(crc, sent);
      SerialIsFeedAll(crc, got);
      var x := FeedAll(crc, before);
      FeedAllSplits(crc, before + m, after);
      FeedAllSplits(crc, before + n, after);
      FeedAllSplits(crc, before, m);
      FeedAllSplits(crc, before, n);
      FeedAllInjective(FeedAll(x, m), FeedAll(x, n), after);
      ShortRunsDiffer(x, m, n);
    }
  }

  /** The check value by which this CRC is told from others: the checksum of "123456789". */
  lemma CheckValue()
    ensures Serial(0xFFFF_FFFF, [0x31, 0x32, 0x33, 0x34, 0x35, 0x36, 0x37, 0x38, 0x39]) ^ 0xFFFF_FFFF == 0xCBF4_3926
  {
    var data: seq<bv8> := [0x31, 0x32, 0x33, 0x34, 0x35, 0x36, 0x37, 0x38, 0x39];
    hide FeedBits, Serial;
    NothingFed();
    NextByte(data, 1);
    OneByte(0xFFFF_FFFF, 0x31, 0xAFF5_1D84, 0x7C23_1048);
    NextByte(data, 2);
    OneByte(0x7C23_1048, 0x32, 0xD114_92EF, 0xB0AC_BB32);
    NextByte(data, 3);
    OneByte(0xB0AC_BB32, 0x33, 0x16BD_DBD4, 0x77B7_9C2D);
    NextByte(data, 4);
    OneByte(0x77B7_9C2D, 0x34, 0xF774_EA85, 0x641C_1F5C);
    NextByte(data, 5);
    OneByte(0x641C_1F5C, 0x35, 0xF64E_52B2, 0x340A_C5E3);
    NextByte(data, 6);
    OneByte(0x340A_C5E3, 0x36, 0x682B_FDA9, 0xF68D_2C9E);
    NextByte(data, 7);
    OneByte(0xF68D_2C9E, 0x37, 0xFF67_418E, 0xAFFC_9660);
    NextByte(data, 8);
    OneByte(0xAFFC_9660, 0x38, 0xE747_4A45, 0x651F_2550);
    NextByte(data, 9);
    OneByte(0x651F_2550, 0x39, 0xF65E_6112, 0x340B_C6D9);
    assert data[..9] == data;
  }

  lemma NothingFed()
    ensures Serial(0xFFFF_FFFF, []) == 0xFFFF_FFFF
  {
  }

  lemma NextByte(data: seq<bv8>, k: nat)
    requires 0 < k <= |data|
    ensures Serial(0xFFFF_FFFF, data[..k]) == FeedBits(Serial(0xFFFF_FFFF, data[..k - 1]), data[k - 1] as bv32, 8)
  {
    hide FeedBits;
    assert data[..k][..k - 1] == data[..k - 1];
  }

  /** A step of the register with the polynomial written out. */
  function PolyStep(x: bv32): bv32 {
    if x & 1 != 0 then (x >> 1) ^ 0xEDB8_8320 else x >> 1
  }

  function FourSteps(x: bv32): bv32 {
    PolyStep(PolyStep(PolyStep(PolyStep(x))))
  }

  lemma PolyStepIs(x: bv32)
    ensures PolyStep(x) == BitStep(x)
  {
  }

  lemma FourStepsAre(x: bv32, n: nat)
    ensures Steps(n + 4, x) == FourSteps(Steps(n, x))
  {
    hide PolyStep, BitStep;
    PolyStepIs(Steps(n, x));
    PolyStepIs(Steps(n + 1, x));
    PolyStepIs(Steps(n + 2, x));
    PolyStepIs(Steps(n + 3, x));
  }

  /** One byte through the register, in two halves. */
  lemma OneByte(crc: bv32, byte: bv8, half: bv32, next: bv32)
    requires FourSteps(crc ^ byte as bv32) == half && FourSteps(half) == next
    ensures FeedBits(crc, byte as bv32, 8) == next
  {
    FeedByte(crc, byte);
    var x := Xor(crc, byte as bv32);
    FourStepsAre(x, 0);
    FourStepsAre(x, 4);
    hide FourSteps, FeedBits;
  }
}

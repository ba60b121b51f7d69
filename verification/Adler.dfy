/** Adler-32 on 32-bit accumulators that are reduced once a chunk, against the sums of RFC 1950. */
module Adler {
  /** An accumulator; arithmetic on it must be shown not to leave the range. */
  newtype u32 = x: int | 0 <= x < 0x1_0000_0000
  newtype u8 = x: int | 0 <= x < 256

  const MOD: u32 := 65521
  const MAX_CHUNK: nat := 5552

  // --- the reference: unbounded sums, reduced at the end --------------------------------------

  function SumA(a: int, data: seq<u8>): int {
    if data == [] then a else SumA(a, data[..|data| - 1]) + data[|data| - 1] as int
  }

  /** The sum of every value SumA takes on the way. */
  function SumB(a: int, b: int, data: seq<u8>): int {
    if data == [] then b else SumB(a, b, data[..|data| - 1]) + SumA(a, data)
  }

  lemma {:induction false} SumsSplit(a: int, b: int, x: seq<u8>, y: seq<u8>)
    ensures SumA(a, x + y) == SumA(SumA(a, x), y)
    ensures SumB(a, b, x + y) == SumB(SumA(a, x), SumB(a, b, x), y)
  {
    if y == [] {
      assert x + y == x;
    } else {
      SumsSplit(a, b, x, y[..|y| - 1]);
      assert (x + y)[..|x + y| - 1] == x + y[..|y| - 1];
    }
  }

  /** Only the residues of the starting sums matter. */
  lemma {:induction false} SumsShift(a: int, b: int, k: int, l: int, data: seq<u8>)
    ensures SumA(a + k * 65521, data) == SumA(a, data) + k * 65521
    ensures SumB(a + k * 65521, b + l * 65521, data) == SumB(a, b, data) + (l + k * |data|) * 65521
  {
    if data != [] {
      var before := data[..|data| - 1];
      SumsShift(a, b, k, l, before);
      assert (l + k * |data|) * 65521 == (l + k * |before|) * 65521 + k * 65521;
    }
  }

  lemma ModShift(x: int, k: int)
    ensures (x + k * 65521) % 65521 == x % 65521
  {
  }

  lemma SumsOfResidues(a: int, b: int, data: seq<u8>)
    ensures SumA(a % 65521, data) % 65521 == SumA(a, data) % 65521
    ensures SumB(a % 65521, b % 65521, data) % 65521 == SumB(a, b, data) % 65521
  {
    var k, l := a / 65521, b / 65521;
    SumsShift(a % 65521, b % 65521, k, l, data);
    ModShift(SumA(a % 65521, data), k);
    ModShift(SumB(a % 65521, b % 65521, data), l + k * |data|);
    hide SumA, SumB;
    assert a % 65521 + k * 65521 == a && b % 65521 + l * 65521 == b;
  }

  // --- reducing after every byte instead ------------------------------------------------------

  datatype Pair = Pair(a: int, b: int)

  function Eager(p: Pair, data: seq<u8>): Pair {
    if data == [] then p
    else
      var q := Eager(p, data[..|data| - 1]);
      var a := (q.a + data[|data| - 1] as int) % 65521;
      Pair(a, (q.b + a) % 65521)
  }

  lemma AddResidues(x: int, y: int)
    ensures (x % 65521 + y) % 65521 == (x + y) % 65521
    ensures (x + y % 65521) % 65521 == (x + y) % 65521
  {
  }

  /** Reducing late gives what reducing after every byte gives. */
  lemma {:induction false} EagerIsDeferred(p: Pair, data: seq<u8>)
    requires 0 <= p.a < 65521 && 0 <= p.b < 65521
    ensures Eager(p, data) == Pair(SumA(p.a, data) % 65521, SumB(p.a, p.b, data) % 65521)
  {
    if data != [] {
      var before, d := data[..|data| - 1], data[|data| - 1] as int;
      EagerIsDeferred(p, before);
      var a, b := SumA(p.a, before), SumB(p.a, p.b, before);
      AddResidues(a, d);
      AddResidues(b, (a + d) % 65521);
      AddResidues(b, a + d);
    }
  }

  // --- how large the sums of one chunk get -----------------------------------------------------

  function Most(n: nat): int {
    65520 + 65520 * n + 255 * (n * (n + 1) / 2)
  }

  lemma MostStep(n: nat)
    ensures Most(n + 1) == Most(n) + 65520 + 255 * (n + 1)
  {
    assert (n + 1) * (n + 2) == n * (n + 1) + 2 * (n + 1);
  }

  lemma {:induction false} SumsBounded(a: int, b: int, data: seq<u8>)
    requires 0 <= a <= 65520 && 0 <= b <= 65520
    ensures 0 <= SumA(a, data) <= 65520 + 255 * |data|
    ensures 0 <= SumB(a, b, data) <= Most(|data|)
  {
    if data != [] {
      hide Most;
      SumsBounded(a, b, data[..|data| - 1]);
      MostStep(|data| - 1);
    } else {
      assert Most(0) == 65520;
    }
  }

  function Worst(n: nat): (data: seq<u8>)
    ensures |data| == n
  {
    seq(n, _ => 255 as u8)
  }

  lemma {:induction false} WorstAttains(n: nat)
    ensures SumA(65520, Worst(n)) == 65520 + 255 * n
    ensures SumB(65520, 65520, Worst(n)) == Most(n)
  {
    if n == 0 {
      assert Most(0) == 65520;
    } else {
      WorstAttains(n - 1);
      MostStep(n - 1);
      hide Most;
      assert Worst(n)[..n - 1] == Worst(n - 1);
    }
  }

  lemma MostMonotone(m: nat, n: nat)
    requires m <= n
    ensures Most(m) <= Most(n)
    decreases n - m
  {
    if m < n {
      MostStep(m);
      MostMonotone(m + 1, n);
    }
  }

  predicate Fits(a: int, b: int, data: seq<u8>) {
    SumA(a, data) < 0x1_0000_0000 && SumB(a, b, data) < 0x1_0000_0000
  }

  /** 5552 is exactly the longest chunk no 32-bit accumulator can overflow in, whatever the data
      and whatever reduced sums it starts from. */
  lemma ChunkLengthIsTight(n: nat)
    ensures n <= MAX_CHUNK <==>
      (forall a, b, data: seq<u8> :: 0 <= a <= 65520 && 0 <= b <= 65520 && |data| == n ==> Fits(a, b, data))
  {
    if n <= MAX_CHUNK {
      MostMonotone(n, MAX_CHUNK);
      assert Most(MAX_CHUNK) < 0x1_0000_0000;
      forall a, b, data: seq<u8> | 0 <= a <= 65520 && 0 <= b <= 65520 && |data| == n ensures Fits(a, b, data) {
        SumsBounded(a, b, data);
      }
    } else {
      MostMonotone(MAX_CHUNK + 1, n);
      assert Most(MAX_CHUNK + 1) >= 0x1_0000_0000;
      WorstAttains(n);
      assert !Fits(65520, 65520, Worst(n));
    }
  }

  // --- the running checksum ------------------------------------------------------------------------

  class Adler32 {
    var a: u32
    var b: u32

    ghost predicate Valid()
      reads this
    {
      a < MOD && b < MOD
    }

    constructor ()
      ensures Valid() && a == 1 && b == 0
    {
      a, b := 1, 0;
    }

    /** The inner loop: no sum leaves 32 bits within one chunk. */
    method AddChunk(chunk: seq<u8>)
      requires Valid() && |chunk| <= MAX_CHUNK
      modifies this
      ensures a as int == SumA(old(a) as int, chunk)
      ensures b as int == SumB(old(a) as int, old(b) as int, chunk)
    {
      for i := 0 to |chunk|
        invariant a as int == SumA(old(a) as int, chunk[..i])
        invariant b as int == SumB(old(a) as int, old(b) as int, chunk[..i])
      {
        assert chunk[..i + 1][..i] == chunk[..i];
        SumsBounded(old(a) as int, old(b) as int, chunk[..i + 1]);
        MostMonotone(i + 1, MAX_CHUNK);
        a := a + chunk[i] as u32;
        b := b + a;
      }
      assert chunk[..|chunk|] == chunk;
    }

    /** However long the data, both sums come out as the unbounded ones reduced. */
    method Update(data: seq<u8>)
      requires Valid()
      modifies this
      ensures Valid()
      ensures a as int == SumA(old(a) as int, data) % 65521
      ensures b as int == SumB(old(a) as int, old(b) as int, data) % 65521
    {
      hide SumA, SumB;
      var done := 0;
      assert data[..0] == [];
      NoData(a as int, b as int);
      while done < |data|
        invariant 0 <= done <= |data| && Valid()
        invariant a as int == SumA(old(a) as int, data[..done]) % 65521
        invariant b as int == SumB(old(a) as int, old(b) as int, data[..done]) % 65521
      {
        var end := if |data| - done < MAX_CHUNK then |data| else done + MAX_CHUNK;
        ghost var a0, b0 := SumA(old(a) as int, data[..done]), SumB(old(a) as int, old(b) as int, data[..done]);
        SumsSplit(old(a) as int, old(b) as int, data[..done], data[done..end]);
        assert data[..done] + data[done..end] == data[..end];
        SumsOfResidues(a0, b0, data[done..end]);
        AddChunk(data[done..end]);
        a := a % MOD;
        b := b % MOD;
        done := end;
      }
      assert data[..done] == data;
    }

    /** Both sums can be read back from the checksum. */
    method Finalize() returns (sum: bv32)
      requires Valid()
      ensures sum >> 16 == b as bv32 && sum & 0xFFFF == a as bv32
    {
      var high, low := b as bv32, a as bv32;
      sum := (high << 16) | low;
      assert high < 0x1_0000 && low < 0x1_0000;
      Halves(high, low);
    }
  }

  lemma NoData(a: int, b: int)
    ensures SumA(a, []) == a && SumB(a, b, []) == b
  {
  }

  lemma Halves(high: bv32, low: bv32)
    requires high < 0x1_0000 && low < 0x1_0000
    ensures ((high << 16) | low) >> 16 == high && ((high << 16) | low) & 0xFFFF == low
  {
  }

  /** Data in two updates and data in one leave the same sums. */
  method UpdateInPieces(x: seq<u8>, y: seq<u8>) returns (pieces: Adler32, whole: Adler32)
    ensures pieces.a == whole.a && pieces.b == whole.b
    ensures whole.a as int == SumA(1, x + y) % 65521 && whole.b as int == SumB(1, 0, x + y) % 65521
  {
    pieces := new Adler32();
    pieces.Update(x);
    pieces.Update(y);
    whole := new Adler32();
    whole.Update(x + y);
    SumsSplit(1, 0, x, y);
    SumsOfResidues(SumA(1, x), SumB(1, 0, x), y);
  }

  /** The known checksum of "Wikipedia": 0x11E6 and 0x0398. */
  lemma CheckValue()
    ensures var data: seq<u8> := [0x57, 0x69, 0x6B, 0x69, 0x70, 0x65, 0x64, 0x69, 0x61];
      SumB(1, 0, data) % 65521 == 0x11E6 && SumA(1, data) % 65521 == 0x0398
  {
    var data: seq<u8> := [0x57, 0x69, 0x6B, 0x69, 0x70, 0x65, 0x64, 0x69, 0x61];
    var k := 0;
    assert data[..0] == [];
    while k < 9
      invariant 0 <= k <= 9
      invariant SumA(1, data[..k]) == [1, 88, 193, 300, 405, 517, 618, 718, 823, 920][k]
      invariant SumB(1, 0, data[..k]) == [0, 88, 281, 581, 986, 1503, 2121, 2839, 3662, 4582][k]
    {
      assert data[..k + 1][..k] == data[..k];
      k := k + 1;
    }
    assert data[..9] == data;
  }
}

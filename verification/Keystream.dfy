/** Consuming a block cipher's keystream in pieces of any size: the ChaCha20 stream and the random
    generator on top of it. The block function itself is a parameter. */
module Keystream {
  type Block = b: seq<bv8> | |b| == 64 witness seq(64, _ => 0)

  const LAST := 0xFFFF_FFFF

  type Counter = c: nat | c <= LAST

  /** The block function for each counter value, and the counter the stream starts from. */
  datatype Stream = Stream(core: Counter -> Block, start: Counter)

  /** The counter stops at its last value, so from there on the same block comes again. */
  function CounterOf(s: Stream, block: nat): Counter {
    if s.start + block <= LAST then s.start + block else LAST
  }

  /** Byte n of the keystream. */
  function KeyAt(s: Stream, n: nat): bv8 {
    s.core(CounterOf(s, n / 64))[n % 64]
  }

  function Key(s: Stream, at: nat, n: nat): (k: seq<bv8>)
    ensures |k| == n
  {
    seq(n, i requires 0 <= i < n => KeyAt(s, at + i))
  }

  lemma BlockIsKey(s: Stream, block: nat, i: nat)
    requires i < 64
    ensures s.core(CounterOf(s, block))[i] == KeyAt(s, 64 * block + i)
  {
    assert (64 * block + i) / 64 == block && (64 * block + i) % 64 == i;
  }

  class ChaCha20 {
    const stream: Stream
    const pending: array<bv8>     // the block being consumed
    var counter: Counter
    var left: nat                 // how many bytes of it are still unused
    var exhausted: bool
    ghost var blocks: nat         // how many blocks have been generated

    ghost predicate Valid()
      reads this, pending
    {
      && pending.Length == 64 && left <= 64
      && counter == CounterOf(stream, blocks) && (exhausted <==> stream.start + blocks > LAST)
      && left <= 64 * blocks
      && forall i :: 64 - left <= i < 64 ==> pending[i] == KeyAt(stream, 64 * blocks - 64 + i)
    }

    constructor (core: Counter -> Block, start: Counter)
      ensures Valid() && fresh(pending) && stream == Stream(core, start) && blocks == 0 && left == 0
    {
      stream := Stream(core, start);
      pending := new bv8[64];
      counter, left, exhausted, blocks := start, 0, false, 0;
    }

    /** A whole block; what was left of the one before is dropped. */
    method NextBlock(out: array<bv8>)
      requires Valid() && out.Length == 64 && out != pending
      modifies this, out
      ensures Valid() && left == 0 && blocks == old(blocks) + 1
      ensures forall i :: 0 <= i < 64 ==> out[i] == KeyAt(stream, 64 * old(blocks) + i)
    {
      var block := stream.core(counter);
      forall i | 0 <= i < 64 {
        out[i] := block[i];
      }
      left := 0;
      if counter == LAST {
        exhausted := true;
      } else {
        counter := counter + 1;
      }
      forall i | 0 <= i < 64 ensures out[i] == KeyAt(stream, 64 * blocks + i) {
        BlockIsKey(stream, blocks, i);
      }
      blocks := blocks + 1;
    }

    /** Loads the next block as the one being consumed. */
    method Load()
      requires Valid()
      modifies this, pending
      ensures Valid() && left == 64 && blocks == old(blocks) + 1
    {
      var block := new bv8[64];
      NextBlock(block);
      forall i | 0 <= i < 64 {
        pending[i] := block[i];
      }
      left := 64;
    }

    /** XORs the next bytes of the keystream into the buffer, from where the last call stopped. */
    method ApplyKeystream(buf: array<bv8>)
      requires Valid() && buf != pending
      modifies this, pending, buf
      ensures Valid() && 64 * blocks - left == old(64 * blocks - left) + buf.Length
      ensures forall i :: 0 <= i < buf.Length ==> buf[i] == old(buf[i]) ^ KeyAt(stream, old(64 * blocks - left) + i)
    {
      ghost var start := 64 * blocks - left;
      hide KeyAt;
      var offset := 0;
      while offset < buf.Length && left > 0
        invariant 0 <= offset <= buf.Length && Valid()
        invariant 64 * blocks - left == start + offset
        invariant forall i :: 0 <= i < offset ==> buf[i] == old(buf[i]) ^ KeyAt(stream, start + i)
        invariant forall i :: offset <= i < buf.Length ==> buf[i] == old(buf[i])
      {
        var index := 64 - left;
        buf[offset] := buf[offset] ^ pending[index];
        left := left - 1;
        offset := offset + 1;
      }
      while offset < buf.Length
        invariant 0 <= offset <= buf.Length && Valid() && (offset < buf.Length ==> left == 0)
        invariant 64 * blocks - left == start + offset
        invariant forall i :: 0 <= i < offset ==> buf[i] == old(buf[i]) ^ KeyAt(stream, start + i)
        invariant forall i :: offset <= i < buf.Length ==> buf[i] == old(buf[i])
      {
        Load();
        var take := if buf.Length - offset < 64 then buf.Length - offset else 64;
        for i := 0 to take
          modifies buf
          invariant Valid() && left == 64 && 64 * blocks - left == start + offset
          invariant forall j :: 0 <= j < offset + i ==> buf[j] == old(buf[j]) ^ KeyAt(stream, start + j)
          invariant forall j :: offset + i <= j < buf.Length ==> buf[j] == old(buf[j])
        {
          assert pending[i] == KeyAt(stream, start + (offset + i));
          buf[offset + i] := buf[offset + i] ^ pending[i];
        }
        left := left - take;
        offset := offset + take;
      }
    }
  }

  class ChaChaRng {
    const cipher: ChaCha20
    const buffer: array<bv8>
    var pos: nat

    ghost predicate Valid()
      reads this, buffer, cipher, cipher.pending
    {
      && cipher.Valid() && buffer != cipher.pending
      && buffer.Length == 64 && pos <= 64
      && 64 - pos <= 64 * cipher.blocks
      && forall i :: pos <= i < 64 ==> buffer[i] == KeyAt(cipher.stream, 64 * cipher.blocks - 64 + i)
    }

    constructor (core: Counter -> Block)
      ensures Valid() && fresh(cipher) && fresh(cipher.pending) && fresh(buffer)
      ensures cipher.stream == Stream(core, 0) && cipher.blocks == 0 && pos == 64
    {
      cipher := new ChaCha20(core, 0);
      buffer := new bv8[64];
      pos := 64;
    }

    method Refill()
      requires Valid()
      modifies this, cipher, buffer
      ensures Valid() && pos == 0 && cipher.blocks == old(cipher.blocks) + 1
    {
      cipher.NextBlock(buffer);
      pos := 0;
    }

    /** Copies the next `take` bytes of the buffer out. */
    method CopyOut(out: array<bv8>, written: nat, take: nat)
      requires Valid() && out != buffer && out != cipher.pending
      requires written + take <= out.Length && pos + take <= 64
      modifies this`pos, out
      ensures Valid() && pos == old(pos) + take
      ensures forall i :: 0 <= i < written ==> out[i] == old(out[i])
      ensures forall i :: written <= i < written + take
                ==> out[i] == KeyAt(cipher.stream, 64 * cipher.blocks + old(pos) - 64 + (i - written))
    {
      hide KeyAt;
      forall i | 0 <= i < take {
        out[written + i] := buffer[pos + i];
      }
      assert forall i :: written <= i < written + take ==> out[i] == buffer[pos + (i - written)];
      pos := pos + take;
    }

    /** The next bytes of the keystream, from where the last call of any kind stopped. */
    method FillBytes(out: array<bv8>)
      requires Valid() && out != buffer && out != cipher.pending
      modifies this, cipher, buffer, out
      ensures Valid() && 64 * cipher.blocks + pos == old(64 * cipher.blocks + pos) + out.Length
      ensures out[..] == Key(cipher.stream, old(64 * cipher.blocks + pos - 64), out.Length)
    {
      ghost var start := 64 * cipher.blocks + pos - 64;
      hide KeyAt;
      var written := 0;
      if pos < 64 {
        var take := if 64 - pos < out.Length then 64 - pos else out.Length;
        CopyOut(out, written, take);
        written := written + take;
      }
      while written < out.Length
        invariant 0 <= written <= out.Length && Valid() && (written < out.Length ==> pos == 64)
        invariant 64 * cipher.blocks + pos - 64 == start + written
        invariant forall i :: 0 <= i < written ==> out[i] == KeyAt(cipher.stream, start + i)
      {
        Refill();
        var take := if out.Length - written < 64 then out.Length - written else 64;
        CopyOut(out, written, take);
        written := written + take;
      }
    }

    method NextU8() returns (v: bv8)
      requires Valid()
      modifies this, cipher, buffer
      ensures Valid() && 64 * cipher.blocks + pos == old(64 * cipher.blocks + pos) + 1
      ensures v == KeyAt(cipher.stream, old(64 * cipher.blocks + pos - 64))
    {
      if pos >= 64 {
        Refill();
      }
      v := buffer[pos];
      pos := pos + 1;
    }
  }

  // --- what the pieces add up to --------------------------------------------------------------

  function Sum(lengths: seq<nat>): nat {
    if lengths == [] then 0 else Sum(lengths[..|lengths| - 1]) + lengths[|lengths| - 1]
  }

  /** What requests of these lengths receive, one after the other. */
  function Pieces(s: Stream, at: nat, lengths: seq<nat>): seq<bv8> {
    if lengths == [] then []
    else
      var before := lengths[..|lengths| - 1];
      Pieces(s, at, before) + Key(s, at + Sum(before), lengths[|lengths| - 1])
  }

  lemma KeyJoins(s: Stream, at: nat, m: nat, n: nat)
    ensures Key(s, at, m) + Key(s, at + m, n) == Key(s, at, m + n)
  {
    hide KeyAt;
    var joined := Key(s, at, m) + Key(s, at + m, n);
    forall i | 0 <= i < m + n ensures joined[i] == Key(s, at, m + n)[i] {
      if i >= m {
        assert at + m + (i - m) == at + i;
      }
    }
  }

  /** However a stream is cut into requests, together they receive exactly the stream. */
  lemma {:induction false} PiecesAreTheStream(s: Stream, at: nat, lengths: seq<nat>)
    ensures Pieces(s, at, lengths) == Key(s, at, Sum(lengths))
  {
    hide KeyAt;
    if lengths == [] {
    } else {
      var before, n := lengths[..|lengths| - 1], lengths[|lengths| - 1];
      PiecesAreTheStream(s, at, before);
      KeyJoins(s, at, Sum(before), n);
    }
  }

  /** A block function that tells one counter value from all others. */
  function Marks(c: Counter): Counter -> Block {
    x => seq(64, _ => if x == c then 1 else 0)
  }

  /** Whatever the block function, the bytes of one block come again m blocks later exactly if the
      counter stands at its last value by then. Before that some block function tells them apart. */
  lemma BytesRepeatOnlyAtTheEnd(start: Counter, n: nat, m: nat)
    requires m > 0
    ensures (forall core: Counter -> Block :: KeyAt(Stream(core, start), n) == KeyAt(Stream(core, start), n + 64 * m))
       <==> start + n / 64 >= LAST
  {
    assert (n + 64 * m) / 64 == n / 64 + m && (n + 64 * m) % 64 == n % 64;
    if start + n / 64 < LAST {
      var c: Counter := start + n / 64;
      var s := Stream(Marks(c), start);
      assert KeyAt(s, n) == 1 && KeyAt(s, n + 64 * m) == 0;
    } else {
      forall core: Counter -> Block
        ensures KeyAt(Stream(core, start), n) == KeyAt(Stream(core, start), n + 64 * m)
      {
        var s := Stream(core, start);
        assert CounterOf(s, n / 64) == LAST && CounterOf(s, n / 64 + m) == LAST;
      }
    }
  }

  /** The blocks are those of the start's own counter value and the ones after it, each in its place. */
  lemma BlocksCountUp(s: Stream, b: nat, i: nat)
    requires s.start + b <= LAST && i < 64
    ensures KeyAt(s, 64 * b + i) == s.core(s.start + b)[i]
  {
    BlockIsKey(s, b, i);
  }

  function Xored(data: seq<bv8>, key: seq<bv8>): seq<bv8>
    requires |data| == |key|
  {
    seq(|data|, i requires 0 <= i < |data| => data[i] ^ key[i])
  }

  lemma XorTwice(x: bv8, y: bv8)
    ensures (x ^ y) ^ y == x
  {
  }

  /** Sender and receiver may cut one stream differently: what is decrypted is what was sent. */
  lemma CutsNeedNotAgree(s: Stream, at: nat, data: seq<bv8>, sent: seq<nat>, received: seq<nat>)
    requires Sum(sent) == |data| == Sum(received)
    ensures |Pieces(s, at, sent)| == |Pieces(s, at, received)| == |data|
    ensures Xored(Xored(data, Pieces(s, at, sent)), Pieces(s, at, received)) == data
  {
    PiecesAreTheStream(s, at, sent);
    PiecesAreTheStream(s, at, received);
    hide Pieces;
    var key := Key(s, at, |data|);
    forall i | 0 <= i < |data| ensures (data[i] ^ key[i]) ^ key[i] == data[i] {
      XorTwice(data[i], key[i]);
    }
  }
}

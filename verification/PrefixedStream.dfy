/** A stream with bytes already off the wire, which are served before the wire is read again. */
module PrefixedStream {
  import opened Wrappers

  datatype IoError = WouldBlock | Failed

  /** What the wire does with the next read: fail, or hand over at most so many bytes. */
  type Grant = Result<nat, IoError>

  function Min(a: nat, b: nat): nat {
    if a <= b then a else b
  }

  class Transport {
    var left: seq<bv8>

    constructor (left: seq<bv8>)
      ensures this.left == left
    {
      this.left := left;
    }

    method Read(buf: array<bv8>, grant: Grant) returns (r: Result<nat, IoError>)
      modifies this, buf
      ensures r.Ok? ==> r.value <= buf.Length && buf[..r.value] + left == old(left) && buf[r.value..] == old(buf[..])[r.value..]
      ensures r.Err? ==> left == old(left) && buf[..] == old(buf[..])
    {
      if grant.Err? {
        return Err(grant.error);
      }
      var n := Min(Min(grant.value, |left|), buf.Length);
      forall i | 0 <= i < n {
        buf[i] := left[i];
      }
      assert buf[..n] == left[..n];
      left := left[n..];
      return Ok(n);
    }
  }

  class PrefixedStream {
    var prefix: seq<bv8>
    var offset: nat
    const inner: Transport

    ghost predicate Valid()
      reads this
    {
      offset <= |prefix| && (prefix != [] ==> offset < |prefix|)
    }

    /** Everything the reader has still to receive. */
    ghost function Pending(): seq<bv8>
      requires Valid()
      reads this, inner
    {
      prefix[offset..] + inner.left
    }

    constructor (prefix: seq<bv8>, inner: Transport)
      ensures Valid() && this.inner == inner && Pending() == prefix + inner.left
    {
      this.prefix, this.offset, this.inner := prefix, 0, inner;
    }

    function Remaining(): (n: nat)
      requires Valid()
      reads this
      ensures n == 0 <==> prefix == []
    {
      |prefix| - offset
    }

    /** Whatever the buffer's size and whatever the wire does, a read hands over the next bytes of
        what is pending and nothing else; while there is prefix left the wire is not touched. */
    method Read(buf: array<bv8>, grant: Grant) returns (r: Result<nat, IoError>)
      requires Valid()
      modifies this, inner, buf
      ensures Valid()
      ensures r.Ok? ==> r.value <= buf.Length && buf[..r.value] + Pending() == old(Pending())
      ensures r.Ok? ==> buf[r.value..] == old(buf[..])[r.value..]
      ensures r.Err? ==> Pending() == old(Pending()) && buf[..] == old(buf[..])
      ensures old(Remaining()) > 0 ==>
        inner.left == old(inner.left) && r == Ok(Min(old(Remaining()), buf.Length)) && Remaining() == old(Remaining()) - r.value
    {
      if offset < |prefix| {
        var n := Min(|prefix| - offset, buf.Length);
        forall i | 0 <= i < n {
          buf[i] := prefix[offset + i];
        }
        assert prefix[offset..] == buf[..n] + prefix[offset + n..];
        offset := offset + n;
        if offset == |prefix| {
          prefix := [];
          offset := 0;
        }
        return Ok(n);
      }
      r := inner.Read(buf, grant);
    }
  }
}

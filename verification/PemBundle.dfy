/** Extracting every certificate block of a PEM bundle. */
module PemBundle {
  import opened Text
  import opened Wrappers
  import Base64

  const BEGIN := "-----BEGIN CERTIFICATE-----"
  const END := "-----END CERTIFICATE-----"

  type Der = seq<Base64.Byte>

  // --- the bundle -------------------------------------------------------------------------

  /** What a bundle holds: each block in turn, until no block is complete or one does not decode. */
  function Certificates(pem: string): Result<seq<Der>, Base64.Error>
    decreases |pem|
  {
    match Find(pem, BEGIN)
    case None => Ok([])
    case Some(start) =>
      FindIsFirst(pem, BEGIN);
      var after := pem[start + |BEGIN|..];
      match Find(after, END)
      case None => Ok([])
      case Some(end) =>
        FindIsFirst(after, END);
        match Base64.Decoded(after[..end])
        case Err(e) => Err(e)
        case Ok(der) => Add([der], Certificates(after[end + |END|..]))
  }

  function Add(front: seq<Der>, r: Result<seq<Der>, Base64.Error>): Result<seq<Der>, Base64.Error> {
    match r
    case Ok(rest) => Ok(front + rest)
    case Err(e) => Err(e)
  }

  lemma AddTwice(x: seq<Der>, y: seq<Der>, r: Result<seq<Der>, Base64.Error>)
    ensures Add(x, Add(y, r)) == Add(x + y, r)
  {
    if r.Ok? {
      assert x + (y + r.value) == x + y + r.value;
    }
  }

  lemma AddNothing(r: Result<seq<Der>, Base64.Error>)
    ensures Add([], r) == r
  {
    if r.Ok? {
      assert [] + r.value == r.value;
    }
  }

  method ParseBundle(pem: string) returns (r: Result<seq<Der>, Base64.Error>)
    ensures r == Certificates(pem)
  {
    hide Base64.Decoded, Find;
    var out: seq<Der> := [];
    var rest := pem;
    AddNothing(Certificates(pem));
    var start := Find(rest, BEGIN);
    while start.Some?
      invariant start == Find(rest, BEGIN)
      invariant Certificates(pem) == Add(out, Certificates(rest))
      decreases |rest|
    {
      FindIsFirst(rest, BEGIN);
      var after := rest[start.value + |BEGIN|..];
      var end := Find(after, END);
      if end.None? {
        break;
      }
      FindIsFirst(after, END);
      var der := Base64.Decode(after[..end.value]);
      if der.Err? {
        return Err(der.error);
      }
      rest := after[end.value + |END|..];
      AddTwice(out, [der.value], Certificates(rest));
      out := out + [der.value];
      start := Find(rest, BEGIN);
    }
    assert out + [] == out;
    return Ok(out);
  }

  // --- what goes into a bundle comes out --------------------------------------------------------

  /** One certificate in a bundle: whatever text precedes it, and its base64 with line breaks. */
  datatype Block = Block(preamble: string, body: string, der: Der)

  /** No marker begins within the preamble, not even one that runs on into the block's own. */
  predicate QuietBefore(preamble: string) {
    forall j: nat :: j < |preamble| ==> !OccursAt(preamble + BEGIN, BEGIN, j)
  }

  predicate BlockOk(b: Block) {
    QuietBefore(b.preamble) && Base64.Stripped(b.body) == Base64.Encode(b.der)
  }

  function Bundle(blocks: seq<Block>, tail: string): string {
    if blocks == [] then tail
    else blocks[0].preamble + BEGIN + blocks[0].body + END + Bundle(blocks[1..], tail)
  }

  function Ders(blocks: seq<Block>): seq<Der> {
    if blocks == [] then [] else [blocks[0].der] + Ders(blocks[1..])
  }

  lemma {:induction false} StrippedKeeps(text: string, j: nat)
    requires j < |text| && !Base64.IsBlank(text[j])
    ensures text[j] in Base64.Stripped(text)
  {
    if j > 0 {
      StrippedKeeps(text[1..], j - 1);
    }
  }

  lemma NoDashInLetters(v: Base64.Sextet)
    ensures Base64.Letter(v) != '-'
  {
  }

  lemma NoDashInBody(body: string, der: Der, j: nat)
    requires Base64.Stripped(body) == Base64.Encode(der) && j < |body|
    ensures body[j] != '-'
  {
    if body[j] == '-' {
      StrippedKeeps(body, j);
      hide Base64.Stripped, Base64.SextetsOf, Base64.Letter;
      var s := Base64.SextetsOf(der);
      var k :| 0 <= k < |Base64.Encode(der)| && Base64.Encode(der)[k] == '-';
      assert k < |s| && Base64.Encode(der)[k] == Base64.Letter(s[k]);
      NoDashInLetters(s[k]);
    }
  }

  /** A preamble hides no marker, whatever follows the block's own. */
  lemma BeginFound(preamble: string, rest: string)
    requires QuietBefore(preamble)
    ensures Find(preamble + BEGIN + rest, BEGIN) == Some(|preamble|)
  {
    var s := preamble + BEGIN + rest;
    assert s[|preamble|..] == BEGIN + rest;
    forall j: nat | j < |preamble| ensures !OccursAt(s, BEGIN, j) {
      assert s[j..][..|BEGIN|] == (preamble + BEGIN)[j..][..|BEGIN|];
      assert !OccursAt(preamble + BEGIN, BEGIN, j);
    }
    FindAt(s, BEGIN, |preamble|);
  }

  lemma EndFound(body: string, rest: string)
    requires forall j :: 0 <= j < |body| ==> body[j] != '-'
    ensures Find(body + END + rest, END) == Some(|body|)
  {
    var s := body + END + rest;
    assert s[|body|..] == END + rest;
    forall j: nat | j < |body| ensures !OccursAt(s, END, j) {
      assert s[j..][0] == body[j] && END[0] == '-';
    }
    FindAt(s, END, |body|);
  }

  /** After whole blocks the bundle is read on from where they end. */
  lemma {:induction false} BundleCarriesOn(blocks: seq<Block>, tail: string)
    requires forall b :: b in blocks ==> BlockOk(b)
    ensures Certificates(Bundle(blocks, tail)) == Add(Ders(blocks), Certificates(tail))
  {
    hide Certificates, BlockOk, Add;
    if blocks == [] {
      AddNothing(Certificates(tail));
    } else {
      BundleCarriesOn(blocks[1..], tail);
      OneBlock(blocks[0], Bundle(blocks[1..], tail));
      AddTwice([blocks[0].der], Ders(blocks[1..]), Certificates(tail));
    }
  }

  /** Any number of certificates, with any quiet text around them, come out in order and whole. */
  lemma BundleRoundTrip(blocks: seq<Block>, tail: string)
    requires forall b :: b in blocks ==> BlockOk(b)
    requires forall j: nat :: !OccursAt(tail, BEGIN, j)
    ensures Certificates(Bundle(blocks, tail)) == Ok(Ders(blocks))
  {
    BundleCarriesOn(blocks, tail);
    FindIsFirst(tail, BEGIN);
    hide Bundle, Find, Base64.Decoded;
    assert Ders(blocks) + [] == Ders(blocks);
  }

  lemma OneBlock(b: Block, more: string)
    requires BlockOk(b)
    ensures Certificates(b.preamble + BEGIN + b.body + END + more) == Add([b.der], Certificates(more))
  {
    hide Base64.Decoded, Base64.Stripped, Base64.Encode, Find;
    var pem := b.preamble + BEGIN + b.body + END + more;
    var after := b.body + END + more;
    assert pem == b.preamble + BEGIN + after;
    BeginFound(b.preamble, after);
    assert pem[|b.preamble| + |BEGIN|..] == after;
    forall j | 0 <= j < |b.body| ensures b.body[j] != '-' {
      NoDashInBody(b.body, b.der, j);
    }
    EndFound(b.body, more);
    assert after[..|b.body|] == b.body && after[|b.body| + |END|..] == more;
    Base64.DecodeOfEncode(b.der, b.body);
  }

  /** One certificate between its two lines, as RFC 7468 writes them. */
  lemma OneCertificate(body: string, der: Der)
    requires Base64.Stripped(body) == Base64.Encode(der)
    ensures Certificates("-----BEGIN CERTIFICATE-----" + body + "-----END CERTIFICATE-----") == Ok([der])
  {
    var pem := "-----BEGIN CERTIFICATE-----" + body + "-----END CERTIFICATE-----";
    assert pem == "" + BEGIN + body + END + "";
    OneBlock(Block("", body, der), "");
    NothingInNothing();
    hide Base64.Decoded, Base64.Stripped, Base64.Encode, Find, Certificates;
    assert [der] + [] == [der];
  }

  lemma NothingInNothing()
    ensures Certificates("") == Ok([])
  {
  }

  /** A last block without its end line is not a certificate, and not an error: the blocks before it
      stand. */
  lemma CutOffBlockIsDropped(blocks: seq<Block>, preamble: string, rest: string)
    requires (forall b :: b in blocks ==> BlockOk(b)) && QuietBefore(preamble)
    requires forall j: nat :: !OccursAt(rest, END, j)
    ensures Certificates(Bundle(blocks, preamble + BEGIN + rest)) == Ok(Ders(blocks))
  {
    var pem := preamble + BEGIN + rest;
    hide Base64.Decoded, Find, Bundle;
    BundleCarriesOn(blocks, pem);
    BeginFound(preamble, rest);
    assert pem[|preamble| + |BEGIN|..] == rest;
    FindIsFirst(rest, END);
    assert Certificates(pem) == Ok([]);
    assert Ders(blocks) + [] == Ders(blocks);
  }

  /** A whole block that does not decode fails the bundle, whatever is before and after it. */
  lemma BadBlockFails(blocks: seq<Block>, preamble: string, body: string, more: string)
    requires (forall b :: b in blocks ==> BlockOk(b)) && QuietBefore(preamble)
    requires '-' !in body && Base64.Decoded(body).Err?
    ensures Certificates(Bundle(blocks, preamble + BEGIN + (body + END + more))) == Err(Base64.Decoded(body).error)
  {
    var after := body + END + more;
    var pem := preamble + BEGIN + after;
    hide Base64.Decoded, Find, Bundle;
    BundleCarriesOn(blocks, pem);
    BeginFound(preamble, after);
    assert pem[|preamble| + |BEGIN|..] == after;
    EndFound(body, more);
    assert after[..|body|] == body;
  }
}

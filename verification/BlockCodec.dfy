/**
 A small buffering codec that meets the contract of Codecs, so the contract is satisfiable: a header,
 one tagged frame for each full block, and a final frame with the remainder.
 */
module BlockCodec {
  import opened Base
  import opened Codecs

  const BLOCK: nat := 4
  const HEADER: byte := 7
  const MORE: byte := 1
  const LAST: byte := 0

  function Blocks(p: Bytes): Bytes {
    if |p| < BLOCK then [] else [MORE] + p[..BLOCK] + Blocks(p[BLOCK..])
  }

  function Remainder(p: Bytes): (r: Bytes)
    ensures |r| < BLOCK
  {
    if |p| < BLOCK then p else Remainder(p[BLOCK..])
  }

  function Encoder(): Codec {
    Codec(p => [HEADER] + Blocks(p), p => Some([HEADER] + Blocks(p) + [LAST] + Remainder(p)))
  }

  /** The plaintext of the complete frames of c. */
  function Body(c: Bytes): Bytes {
    if |c| > BLOCK && c[0] == MORE then c[1..BLOCK + 1] + Body(c[BLOCK + 1..]) else []
  }

  /** The plaintext of c when c is a complete sequence of frames. */
  function Whole(c: Bytes): Option<Bytes> {
    if c == [] then None
    else if c[0] == LAST then (if |c| <= BLOCK then Some(c[1..]) else None)
    else if |c| > BLOCK && c[0] == MORE then
      var rest := Whole(c[BLOCK + 1..]);
      if rest.Some? then Some(c[1..BLOCK + 1] + rest.value) else None
    else None
  }

  function Decoded(c: Bytes): Bytes {
    if c != [] && c[0] == HEADER then Body(c[1..]) else []
  }

  function Decode(c: Bytes): Option<Bytes> {
    if c != [] && c[0] == HEADER then Whole(c[1..]) else None
  }

  function Decoder(): Codec {
    Codec(c => Decoded(c), c => Decode(c))
  }

  lemma {:induction false} BlocksMonotone(p: Bytes, q: Bytes)
    requires p <= q
    ensures Blocks(p) <= Blocks(q)
  {
    if |p| >= BLOCK {
      BlocksMonotone(p[BLOCK..], q[BLOCK..]);
      assert p[..BLOCK] == q[..BLOCK];
    }
  }

  lemma {:induction false} BodyMonotone(c: Bytes, d: Bytes)
    requires c <= d
    ensures Body(c) <= Body(d)
    ensures Whole(d).Some? ==> Body(c) <= Whole(d).value
  {
    if |c| > BLOCK && c[0] == MORE {
      BodyMonotone(c[BLOCK + 1..], d[BLOCK + 1..]);
      assert c[1..BLOCK + 1] == d[1..BLOCK + 1];
    }
  }

  lemma {:induction false} WholeUndoesBlocks(p: Bytes)
    ensures Whole(Blocks(p) + [LAST] + Remainder(p)) == Some(p)
  {
    var c := Blocks(p) + [LAST] + Remainder(p);
    if |p| < BLOCK {
      assert c == [LAST] + p;
    } else {
      WholeUndoesBlocks(p[BLOCK..]);
      assert c == [MORE] + p[..BLOCK] + (Blocks(p[BLOCK..]) + [LAST] + Remainder(p[BLOCK..]));
      assert c[BLOCK + 1..] == Blocks(p[BLOCK..]) + [LAST] + Remainder(p[BLOCK..]);
      assert c[1..BLOCK + 1] == p[..BLOCK];
      assert p[..BLOCK] + p[BLOCK..] == p;
    }
  }

  lemma EncoderValid()
    ensures Encoder().Valid() && Encoder().Total()
  {
    forall p: Bytes, q: Bytes | p <= q ensures Blocks(p) <= Blocks(q) {
      BlocksMonotone(p, q);
    }
  }

  lemma DecodedMonotone(c: Bytes, d: Bytes)
    requires c <= d
    ensures Decoded(c) <= Decoded(d)
    ensures Decode(d).Some? ==> Decoded(c) <= Decode(d).value
  {
    if c != [] {
      BodyMonotone(c[1..], d[1..]);
    }
  }

  lemma DecoderValid()
    ensures Decoder().Valid()
  {
    var d := Decoder();
    forall p: Bytes, q: Bytes | p <= q ensures d.emitted(p) <= d.emitted(q) {
      DecodedMonotone(p, q);
    }
    forall p: Bytes, q: Bytes | p <= q && d.final(q).Some? ensures d.emitted(p) <= d.final(q).value {
      DecodedMonotone(p, q);
    }
  }

  /** The contract is met: both codecs are valid, encoding is total, and decoding undoes it. */
  lemma MeetsContract()
    ensures Encoder().Valid() && Encoder().Total() && Decoder().Valid() && Inverse(Encoder(), Decoder())
  {
    EncoderValid();
    DecoderValid();
    forall p: Bytes ensures Decoder().final(Encoder().final(p).value) == Some(p) {
      WholeUndoesBlocks(p);
      var c := Encoder().final(p).value;
      assert c[1..] == Blocks(p) + [LAST] + Remainder(p);
    }
  }

  lemma {:induction false} BlocksAppend(p: Bytes, q: Bytes)
    ensures Blocks(p + q) == Blocks(p) + Blocks(Remainder(p) + q)
    ensures Remainder(p + q) == Remainder(Remainder(p) + q)
  {
    if |p| >= BLOCK {
      BlocksAppend(p[BLOCK..], q);
      assert (p + q)[BLOCK..] == p[BLOCK..] + q;
      assert (p + q)[..BLOCK] == p[..BLOCK];
    }
  }

  lemma BlocksStep(done: Bytes, todo: Bytes)
    requires |todo| >= BLOCK
    ensures done + Blocks(todo) == done + [MORE] + todo[..BLOCK] + Blocks(todo[BLOCK..])
  {
  }

  /** The encoder as the writer object that the copy loops drive. */
  class BlockWriter {
    var dst: Bytes
    var pending: Bytes
    ghost var consumed: Bytes

    ghost predicate Valid()
      reads this
    {
      dst == Encoder().emitted(consumed) && pending == Remainder(consumed)
    }

    constructor ()
      ensures Valid() && consumed == []
    {
      dst, pending, consumed := [HEADER], [], [];
    }

    /** Whatever the chunking, what has been handed on depends only on the bytes consumed. */
    method Write(p: Bytes)
      requires Valid()
      modifies this
      ensures Valid() && consumed == old(consumed) + p
    {
      BlocksAppend(consumed, p);
      var todo := pending + p;
      ghost var goal := dst + Blocks(todo);
      ghost var left := Remainder(todo);
      while |todo| >= BLOCK
        invariant consumed == old(consumed)
        invariant dst + Blocks(todo) == goal && Remainder(todo) == left
      {
        BlocksStep(dst, todo);
        dst := dst + [MORE] + todo[..BLOCK];
        todo := todo[BLOCK..];
      }
      assert dst + [] == dst;
      pending := todo;
      consumed := consumed + p;
    }

    method Close()
      requires Valid()
      modifies this
      ensures Some(dst) == Encoder().final(consumed) && consumed == old(consumed)
    {
      dst := dst + [LAST] + pending;
    }
  }

  /** An io.Copy of any chunking into the writer, then Close: the final output of the whole input. */
  method Encode(chunks: seq<Bytes>) returns (out: Bytes)
    ensures Some(out) == Encoder().final(Concat(chunks))
  {
    var w := new BlockWriter();
    for i := 0 to |chunks|
      invariant w.Valid() && w.consumed == Concat(chunks[..i])
    {
      ConcatFront(chunks, i);
      w.Write(chunks[i]);
    }
    assert chunks[..|chunks|] == chunks;
    w.Close();
    out := w.dst;
  }
}

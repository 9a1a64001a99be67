/** Values shared by every other module: options, bytes, and chunked byte streams. */
module Base {

  datatype Option<+T> = None | Some(value: T)

  newtype byte = x: int | 0 <= x < 256

  type Bytes = seq<byte>

  /** What a sequence of writes amounts to, whatever its chunking. */
  function Concat(chunks: seq<Bytes>): Bytes {
    if chunks == [] then [] else chunks[0] + Concat(chunks[1..])
  }

  lemma {:induction false} ConcatAppend(xs: seq<Bytes>, ys: seq<Bytes>)
    ensures Concat(xs + ys) == Concat(xs) + Concat(ys)
  {
    if xs == [] {
      assert xs + ys == ys;
    } else {
      assert (xs + ys)[0] == xs[0] && (xs + ys)[1..] == xs[1..] + ys;
      ConcatAppend(xs[1..], ys);
    }
  }

  lemma ConcatSplit(xs: seq<Bytes>, i: nat)
    requires i <= |xs|
    ensures Concat(xs) == Concat(xs[..i]) + Concat(xs[i..])
  {
    assert xs == xs[..i] + xs[i..];
    ConcatAppend(xs[..i], xs[i..]);
  }

  lemma ConcatOne(x: Bytes)
    ensures Concat([x]) == x
  {
    assert [x][1..] == [];
    assert x + [] == x;
  }

  lemma ConcatFront(xs: seq<Bytes>, i: nat)
    requires i < |xs|
    ensures Concat(xs[..i + 1]) == Concat(xs[..i]) + xs[i]
  {
    assert xs[..i + 1] == xs[..i] + [xs[i]];
    ConcatAppend(xs[..i], [xs[i]]);
    ConcatOne(xs[i]);
  }

  lemma ConcatNext(xs: seq<Bytes>, i: nat)
    requires i < |xs|
    ensures Concat(xs[i..]) == xs[i] + Concat(xs[i + 1..])
    ensures Concat(xs[..i + 1]) == Concat(xs[..i]) + xs[i]
    ensures Concat(xs) == Concat(xs[..i]) + Concat(xs[i..])
  {
    ConcatSplit(xs, i);
    ConcatFront(xs, i);
    assert xs[i..][1..] == xs[i + 1..];
  }

  /** b without the prefix it shares with a, when a is a prefix of b. */
  function Rest(a: Bytes, b: Bytes): (r: Bytes)
    ensures a <= b ==> a + r == b
  {
    if |a| <= |b| then b[|a|..] else []
  }
}

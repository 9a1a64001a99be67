/**
 Cutting every element of a sequence of chunks to a given length.  The question is when the result of
 one way of cutting is a prefix of the result of another, whatever bytes the chunks hold.
 */
module Cuts {
  import opened Base

  function Lengths(ps: seq<Bytes>): seq<nat> {
    seq(|ps|, i requires 0 <= i < |ps| => |ps[i]|)
  }

  predicate Within(lo: seq<nat>, hi: seq<nat>) {
    |lo| == |hi| && forall i :: 0 <= i < |lo| ==> lo[i] <= hi[i]
  }

  /** The first ns[i] bytes of each chunk i, one after the other. */
  function Cut(ps: seq<Bytes>, ns: seq<nat>): Bytes
    requires Within(ns, Lengths(ps))
  {
    if ps == [] then []
    else
      var n := |ps| - 1;
      Cut(ps[..n], ns[..n]) + ps[n][..ns[n]]
  }

  /** A chunk that is cut shorter is followed by nothing but empty cuts. */
  predicate NoGap(lo: seq<nat>, hi: seq<nat>)
    requires |lo| == |hi|
  {
    forall i, j :: 0 <= i < j < |lo| && lo[i] < hi[i] ==> lo[j] == 0
  }

  predicate AnyShort(lo: seq<nat>, hi: seq<nat>)
    requires |lo| == |hi|
  {
    exists i :: 0 <= i < |lo| && lo[i] < hi[i]
  }

  /** The shorter cut falls behind exactly when some chunk is cut shorter. */
  lemma {:induction false} Behind(ps: seq<Bytes>, lo: seq<nat>, hi: seq<nat>)
    requires Within(lo, hi) && Within(hi, Lengths(ps))
    ensures |Cut(ps, lo)| <= |Cut(ps, hi)|
    ensures AnyShort(lo, hi) <==> |Cut(ps, lo)| < |Cut(ps, hi)|
  {
    if ps != [] {
      var n := |ps| - 1;
      Behind(ps[..n], lo[..n], hi[..n]);
      assert AnyShort(lo, hi) <==> AnyShort(lo[..n], hi[..n]) || lo[n] < hi[n] by {
        assert forall i :: 0 <= i < n ==> lo[..n][i] == lo[i] && hi[..n][i] == hi[i];
      }
    }
  }

  lemma {:induction false} Same(ps: seq<Bytes>, lo: seq<nat>, hi: seq<nat>)
    requires Within(lo, hi) && Within(hi, Lengths(ps)) && !AnyShort(lo, hi)
    ensures Cut(ps, lo) == Cut(ps, hi)
  {
    assert lo == hi;
  }

  lemma {:induction false} NoGapPrefix(ps: seq<Bytes>, lo: seq<nat>, hi: seq<nat>)
    requires Within(lo, hi) && Within(hi, Lengths(ps)) && NoGap(lo, hi)
    ensures Cut(ps, lo) <= Cut(ps, hi)
  {
    if ps != [] {
      var n := |ps| - 1;
      NoGapPrefix(ps[..n], lo[..n], hi[..n]);
      if AnyShort(lo[..n], hi[..n]) {
        var i :| 0 <= i < n && lo[..n][i] < hi[..n][i];
        assert lo[i] < hi[i];
        assert Cut(ps, lo) == Cut(ps[..n], lo[..n]);
      } else {
        Same(ps[..n], lo[..n], hi[..n]);
        assert ps[n][..lo[n]] <= ps[n][..hi[n]];
      }
    }
  }

  lemma {:induction false} Grows(ps: seq<Bytes>, ns: seq<nat>, n: nat)
    requires n <= |ps| && Within(ns, Lengths(ps))
    ensures Within(ns[..n], Lengths(ps[..n])) && Cut(ps[..n], ns[..n]) <= Cut(ps, ns)
    decreases |ps|
  {
    if n == |ps| {
      assert ps[..n] == ps && ns[..n] == ns;
    } else {
      var m := |ps| - 1;
      Grows(ps[..m], ns[..m], n);
      assert ps[..m][..n] == ps[..n] && ns[..m][..n] == ns[..n];
    }
  }

  predicate All(b: Bytes, x: byte) {
    forall k :: 0 <= k < |b| ==> b[k] == x
  }

  lemma {:induction false} AllZero(ps: seq<Bytes>, ns: seq<nat>)
    requires Within(ns, Lengths(ps)) && forall i :: 0 <= i < |ps| ==> All(ps[i], 0)
    ensures All(Cut(ps, ns), 0)
  {
    if ps != [] {
      AllZero(ps[..|ps| - 1], ns[..|ps| - 1]);
    }
  }

  /** Chunks of the given lengths: zeros before number j, ones from there on. */
  function Marked(lens: seq<nat>, j: nat): (ps: seq<Bytes>)
    ensures Lengths(ps) == lens
  {
    seq(|lens|, i requires 0 <= i < |lens| => seq(lens[i], _ => if i < j then 0 else 1))
  }

  lemma OutOfPlace(before: Bytes, q: Bytes, after: Bytes, front: Bytes, whole: Bytes)
    requires |before| < |front| && front <= whole && before + q <= after && q != [] && q[0] == 1 && All(front, 0)
    ensures !(after <= whole)
  {
    assert after[|before|] == (before + q)[|before|] == 1;
    assert whole[|before|] == front[|before|] == 0;
  }

  /** A byte kept after a chunk was cut shorter is out of place, and the marked chunks show it. */
  lemma GapShows(ps: seq<Bytes>, lo: seq<nat>, hi: seq<nat>, i: nat, j: nat)
    requires Within(lo, hi) && Within(hi, Lengths(ps))
    requires i < j < |ps| && lo[i] < hi[i] && lo[j] > 0
    requires (forall k :: 0 <= k < j ==> All(ps[k], 0)) && All(ps[j], 1)
    ensures !(Cut(ps, lo) <= Cut(ps, hi))
  {
    var before, front := Cut(ps[..j], lo[..j]), Cut(ps[..j], hi[..j]);
    assert |before| < |front| by {
      Behind(ps[..j], lo[..j], hi[..j]);
      assert lo[..j][i] < hi[..j][i];
    }
    var q := ps[j][..lo[j]];
    assert before + q <= Cut(ps, lo) by {
      Grows(ps, lo, j + 1);
      assert ps[..j + 1][..j] == ps[..j] && lo[..j + 1][..j] == lo[..j];
    }
    Grows(ps, hi, j);
    AllZero(ps[..j], hi[..j]);
    OutOfPlace(before, q, Cut(ps, lo), front, Cut(ps, hi));
  }

  /** Whatever the bytes, one result is a prefix of the other. */
  ghost predicate AlwaysPrefix(lens: seq<nat>, lo: seq<nat>, hi: seq<nat>)
    requires Within(lo, hi) && Within(hi, lens)
  {
    forall ps :: Lengths(ps) == lens ==> Cut(ps, lo) <= Cut(ps, hi)
  }

  /** That is so exactly when there is no gap. */
  lemma PrefixIffNoGap(lens: seq<nat>, lo: seq<nat>, hi: seq<nat>)
    requires Within(lo, hi) && Within(hi, lens)
    ensures AlwaysPrefix(lens, lo, hi) <==> NoGap(lo, hi)
  {
    if NoGap(lo, hi) {
      forall ps | Lengths(ps) == lens ensures Cut(ps, lo) <= Cut(ps, hi) {
        NoGapPrefix(ps, lo, hi);
      }
    } else {
      var i, j :| 0 <= i < j < |lo| && lo[i] < hi[i] && lo[j] != 0;
      GapShows(Marked(lens, j), lo, hi, i, j);
    }
  }
}

/** The size-limited, tee'd spool writer: maxBytesWriter over the spool file, next to the hash. */
module Limits {
  import opened Base
  import C = Cuts

  /**
   The spool as the encryption thread sees it.  `limit == 0` means that no limit is configured; the
   writer that counts `remaining` down is then absent.
   */
  datatype Spool = Spool(limit: nat, out: Bytes, remaining: int, hashed: Bytes)

  /** What one Write call did: the new spool, the count returned, and whether it failed. */
  datatype Wrote = Wrote(spool: Spool, n: nat, failed: bool)

  function Fresh(limit: nat): Spool {
    Spool(limit, [], limit, [])
  }

  function Min(a: int, b: int): int {
    if a <= b then a else b
  }

  /** The spool file accepts `accepted` of the bytes it is handed and may report an error. */
  function FileWrite(s: Spool, p: Bytes, accepted: nat, fileErr: bool): Wrote {
    var n := Min(accepted, |p|);
    Wrote(s.(out := s.out + p[..n], remaining := s.remaining - n), n, fileErr || n < |p|)
  }

  /** maxBytesWriter.Write, or the bare file when no limit is configured. */
  function LimitedWrite(s: Spool, p: Bytes, accepted: nat, fileErr: bool): Wrote {
    if s.limit == 0 then
      FileWrite(s, p, accepted, fileErr)
    else if s.remaining <= 0 then
      Wrote(s, 0, true)
    else if |p| <= s.remaining then
      FileWrite(s, p, accepted, fileErr)
    else
      FileWrite(s, p[..s.remaining], accepted, fileErr).(failed := true)
  }

  /** io.MultiWriter(spool, hash): the hash sees a chunk only after the spool took all of it. */
  function TeeWrite(s: Spool, p: Bytes, accepted: nat, fileErr: bool): Wrote {
    var w := LimitedWrite(s, p, accepted, fileErr);
    if w.failed then w else w.(spool := w.spool.(hashed := w.spool.hashed + p))
  }

  // ---- Sequences of writes ----

  /** One Write call together with what the file does with it. */
  datatype Offer = Offer(p: Bytes, accepted: nat, fileErr: bool)

  function Payloads(ops: seq<Offer>): seq<Bytes> {
    seq(|ops|, i requires 0 <= i < |ops| => ops[i].p)
  }

  function Offered(ops: seq<Offer>): Bytes {
    Concat(Payloads(ops))
  }

  function Call(s: Spool, op: Offer): Wrote {
    TeeWrite(s, op.p, op.accepted, op.fileErr)
  }

  function WriteAll(s: Spool, ops: seq<Offer>): Spool {
    if ops == [] then s else Call(WriteAll(s, ops[..|ops| - 1]), ops[|ops| - 1]).spool
  }

  /** Write number i fails. */
  predicate Fails(s: Spool, ops: seq<Offer>, i: nat)
    requires i < |ops|
  {
    Call(WriteAll(s, ops[..i]), ops[i]).failed
  }

  lemma OfferedNext(ops: seq<Offer>, i: nat)
    requires i < |ops|
    ensures Offered(ops[..i + 1]) == Offered(ops[..i]) + ops[i].p
    ensures Offered(ops[..i]) <= Offered(ops)
  {
    assert Payloads(ops[..i + 1]) == Payloads(ops)[..i + 1];
    assert Payloads(ops[..i]) == Payloads(ops)[..i];
    ConcatFront(Payloads(ops), i);
    ConcatSplit(Payloads(ops), i);
  }

  /** The spool and the hash agree with what was offered and with the counter. */
  predicate InStep(s: Spool, offered: Bytes) {
    s.hashed == s.out == offered && s.remaining == s.limit - |s.out| && (s.limit > 0 ==> s.remaining >= 0)
  }

  /** The spool is within the limit and a prefix of what was offered; the hash is a prefix of the spool. */
  predicate Lagging(s: Spool, offered: Bytes) {
    s.hashed <= s.out <= offered && s.remaining == s.limit - |s.out| && (s.limit > 0 ==> s.remaining >= 0)
  }

  lemma CallStep(s: Spool, op: Offer, offered: Bytes)
    requires InStep(s, offered)
    ensures Lagging(Call(s, op).spool, offered + op.p) && Call(s, op).spool.limit == s.limit
    ensures Call(s, op).failed || InStep(Call(s, op).spool, offered + op.p)
  {
  }

  /**
   Whatever the file does: while no write has failed, the spool and the hash hold exactly what was
   offered; the first failing write leaves the spool a prefix of what was offered, within the limit,
   and the hash a prefix of the spool.
   */
  lemma {:induction false} UntilFirstFailure(limit: nat, ops: seq<Offer>)
    requires forall i: nat :: i + 1 < |ops| ==> !Fails(Fresh(limit), ops, i)
    ensures WriteAll(Fresh(limit), ops).limit == limit
    ensures Lagging(WriteAll(Fresh(limit), ops), Offered(ops))
    ensures InStep(WriteAll(Fresh(limit), ops), Offered(ops)) || (ops != [] && Fails(Fresh(limit), ops, |ops| - 1))
  {
    if ops != [] {
      var n := |ops| - 1;
      var front := ops[..n];
      forall i: nat | i < n ensures !Fails(Fresh(limit), front, i) {
        assert !Fails(Fresh(limit), ops, i);
        assert front[..i] == ops[..i];
      }
      UntilFirstFailure(limit, front);
      OfferedNext(ops, n);
      assert ops[..n + 1] == ops;
      CallStep(WriteAll(Fresh(limit), front), ops[n], Offered(front));
    }
  }

  // ---- Over any file and after any failures ----

  /** The limit is kept and the counter is right; the hash has not seen more than the file. */
  predicate Bounded(s: Spool, limit: nat) {
    && s.limit == limit && s.remaining == limit - |s.out| && (limit > 0 ==> |s.out| <= limit)
    && |s.hashed| <= |s.out|
  }

  /** For every sequence of writes over every file, failures anywhere included. */
  lemma {:induction false} AnySequence(limit: nat, ops: seq<Offer>)
    ensures Bounded(WriteAll(Fresh(limit), ops), limit)
  {
    if ops != [] {
      AnySequence(limit, ops[..|ops| - 1]);
    }
  }

  /** No later write succeeds, whatever is offered and whatever the file does. */
  ghost predicate Exhausted(s: Spool) {
    forall more: seq<Offer>, next: Offer :: Call(WriteAll(s, more), next).failed
  }

  lemma {:induction false} UsedUpStays(s: Spool, more: seq<Offer>)
    requires s.limit > 0 && s.remaining == 0
    ensures WriteAll(s, more) == s
  {
    if more != [] {
      UsedUpStays(s, more[..|more| - 1]);
    }
  }

  /**
   Whether an overflow is final: after a write that exceeded what remained, every later write fails if
   and only if the file took all that remained.
   */
  lemma OverflowIsFinalIff(limit: nat, ops: seq<Offer>, over: Offer)
    requires limit > 0 && |over.p| > WriteAll(Fresh(limit), ops).remaining
    ensures Call(WriteAll(Fresh(limit), ops), over).failed
    ensures Exhausted(Call(WriteAll(Fresh(limit), ops), over).spool)
      <==> over.accepted >= WriteAll(Fresh(limit), ops).remaining
  {
    AnySequence(limit, ops);
    var s := Call(WriteAll(Fresh(limit), ops), over).spool;
    if s.remaining == 0 {
      forall more: seq<Offer>, next: Offer ensures Call(WriteAll(s, more), next).failed {
        UsedUpStays(s, more);
      }
    } else {
      assert !Call(WriteAll(s, []), Offer([0], 1, false)).failed;
    }
  }

  /** An overflow that the file cut short as well is not final: a later write can still succeed. */
  lemma OverflowThenSuccess(a: byte)
    ensures var ops := [Offer([a, a, a], 1, false), Offer([a], 1, false)];
      Fails(Fresh(2), ops, 0) && !Fails(Fresh(2), ops, 1)
  {
    var ops := [Offer([a, a, a], 1, false), Offer([a], 1, false)];
    assert ops[..1] == [ops[0]] && ops[..0] == [];
    assert WriteAll(Fresh(2), ops[..1]) == Call(Fresh(2), ops[0]).spool;
  }

  // ---- When spool, hash and offer are prefixes of each other ----

  /** How many bytes of one write the file keeps. */
  function Kept(s: Spool, op: Offer): nat {
    if s.limit == 0 then Min(op.accepted, |op.p|)
    else if s.remaining <= 0 then 0
    else Min(op.accepted, Min(|op.p|, s.remaining))
  }

  /** How many bytes each write leaves in the file. */
  function Kepts(limit: nat, ops: seq<Offer>): (ks: seq<nat>)
    ensures |ks| == |ops|
  {
    if ops == [] then []
    else
      var front := ops[..|ops| - 1];
      Kepts(limit, front) + [Kept(WriteAll(Fresh(limit), front), ops[|front|])]
  }

  /** How many bytes of each write the hash sees: all of a write that succeeds. */
  function Acks(limit: nat, ops: seq<Offer>): (ns: seq<nat>)
    ensures |ns| == |ops|
  {
    if ops == [] then []
    else
      var front := ops[..|ops| - 1];
      Acks(limit, front) + [if Fails(Fresh(limit), ops, |front|) then 0 else |ops[|front|].p|]
  }

  function Sizes(ops: seq<Offer>): seq<nat> {
    C.Lengths(Payloads(ops))
  }

  lemma CallKeeps(s: Spool, op: Offer)
    ensures Kept(s, op) <= |op.p|
    ensures Call(s, op).spool.out == s.out + op.p[..Kept(s, op)]
    ensures !Call(s, op).failed ==> Kept(s, op) == |op.p|
    ensures Call(s, op).spool.hashed == s.hashed + op.p[..if Call(s, op).failed then 0 else |op.p|]
  {
    if s.limit > 0 && 0 < s.remaining < |op.p| {
      assert op.p[..s.remaining][..Kept(s, op)] == op.p[..Kept(s, op)];
    }
    assert s.out + [] == s.out && s.hashed + [] == s.hashed;
  }

  lemma {:induction false} SizesCutNothing(ps: seq<Bytes>)
    ensures C.Cut(ps, C.Lengths(ps)) == Concat(ps)
  {
    if ps != [] {
      var n := |ps| - 1;
      SizesCutNothing(ps[..n]);
      ConcatFront(ps, n);
      assert ps[..n + 1] == ps && C.Lengths(ps)[..n] == C.Lengths(ps[..n]);
    }
  }

  /** The spool and the hash are the payloads, cut to what was kept and to what succeeded. */
  lemma {:induction false} SpoolIsCut(limit: nat, ops: seq<Offer>)
    ensures C.Within(Acks(limit, ops), Kepts(limit, ops)) && C.Within(Kepts(limit, ops), Sizes(ops))
    ensures WriteAll(Fresh(limit), ops).out == C.Cut(Payloads(ops), Kepts(limit, ops))
    ensures WriteAll(Fresh(limit), ops).hashed == C.Cut(Payloads(ops), Acks(limit, ops))
  {
    if ops != [] {
      var n := |ops| - 1;
      SpoolIsCut(limit, ops[..n]);
      CallKeeps(WriteAll(Fresh(limit), ops[..n]), ops[n]);
      assert Payloads(ops)[..n] == Payloads(ops[..n]);
      assert Kepts(limit, ops)[..n] == Kepts(limit, ops[..n]) && Acks(limit, ops)[..n] == Acks(limit, ops[..n]);
    }
  }

  /** The same calls with the same answers of the file, but other bytes. */
  predicate SameShape(a: seq<Offer>, b: seq<Offer>) {
    |a| == |b| && forall i :: 0 <= i < |a| ==>
      |a[i].p| == |b[i].p| && a[i].accepted == b[i].accepted && a[i].fileErr == b[i].fileErr
  }

  lemma {:induction false} ShapeDecides(limit: nat, a: seq<Offer>, b: seq<Offer>)
    requires SameShape(a, b)
    ensures Kepts(limit, a) == Kepts(limit, b) && Acks(limit, a) == Acks(limit, b)
    ensures |WriteAll(Fresh(limit), a).out| == |WriteAll(Fresh(limit), b).out|
  {
    AnySequence(limit, a);
    AnySequence(limit, b);
    if a != [] {
      var n := |a| - 1;
      AnySequence(limit, a[..n]);
      AnySequence(limit, b[..n]);
      ShapeDecides(limit, a[..n], b[..n]);
    }
  }

  function Filled(ops: seq<Offer>, ps: seq<Bytes>): (same: seq<Offer>)
    requires C.Lengths(ps) == Sizes(ops)
    ensures SameShape(ops, same) && Payloads(same) == ps
  {
    assert |ps| == |C.Lengths(ps)| == |ops|;
    assert forall i :: 0 <= i < |ps| ==> |ps[i]| == C.Lengths(ps)[i] == Sizes(ops)[i] == |ops[i].p|;
    seq(|ops|, i requires 0 <= i < |ops| => ops[i].(p := ps[i]))
  }

  /** Whatever bytes are offered, the spool is a prefix of them. */
  ghost predicate SpoolAlwaysPrefix(limit: nat, ops: seq<Offer>) {
    forall same :: SameShape(ops, same) ==> WriteAll(Fresh(limit), same).out <= Offered(same)
  }

  /** Whatever bytes are offered, the hash has seen a prefix of the spool. */
  ghost predicate HashAlwaysPrefix(limit: nat, ops: seq<Offer>) {
    forall same :: SameShape(ops, same) ==> WriteAll(Fresh(limit), same).hashed <= WriteAll(Fresh(limit), same).out
  }

  lemma ShapeSizes(a: seq<Offer>, b: seq<Offer>)
    requires SameShape(a, b)
    ensures Sizes(a) == Sizes(b)
  {
    assert forall i :: 0 <= i < |a| ==> Sizes(a)[i] == |a[i].p| == |b[i].p| == Sizes(b)[i];
  }

  /** Three cuts of the payloads of every sequence of the same shape. */
  lemma ShapeCuts(limit: nat, ops: seq<Offer>, same: seq<Offer>)
    requires SameShape(ops, same)
    ensures C.Within(Acks(limit, ops), Kepts(limit, ops)) && C.Within(Kepts(limit, ops), Sizes(ops))
    ensures C.Lengths(Payloads(same)) == Sizes(ops)
    ensures WriteAll(Fresh(limit), same).hashed == C.Cut(Payloads(same), Acks(limit, ops))
    ensures WriteAll(Fresh(limit), same).out == C.Cut(Payloads(same), Kepts(limit, ops))
    ensures Offered(same) == C.Cut(Payloads(same), Sizes(ops))
  {
    ShapeSizes(ops, same);
    ShapeDecides(limit, ops, same);
    SpoolIsCut(limit, same);
    SizesCutNothing(Payloads(same));
  }

  /**
   The spool is a prefix of what was offered, for all bytes, if and only if no write that the file or
   the limit cut short is followed by one that stores a byte.
   */
  lemma SpoolPrefixIff(limit: nat, ops: seq<Offer>)
    ensures SpoolAlwaysPrefix(limit, ops) <==> C.NoGap(Kepts(limit, ops), Sizes(ops))
  {
    SpoolIsCut(limit, ops);
    C.PrefixIffNoGap(Sizes(ops), Kepts(limit, ops), Sizes(ops));
    forall same | SameShape(ops, same)
      ensures C.AlwaysPrefix(Sizes(ops), Kepts(limit, ops), Sizes(ops)) ==> WriteAll(Fresh(limit), same).out <= Offered(same)
    {
      ShapeCuts(limit, ops, same);
    }
    if SpoolAlwaysPrefix(limit, ops) {
      forall ps | C.Lengths(ps) == Sizes(ops)
        ensures C.Cut(ps, Kepts(limit, ops)) <= C.Cut(ps, Sizes(ops))
      {
        ShapeCuts(limit, ops, Filled(ops, ps));
      }
    }
  }

  /**
   The hash is a prefix of the spool, for all bytes, if and only if no failed write that stored a byte is
   followed by a non-empty write that succeeds.
   */
  lemma HashPrefixIff(limit: nat, ops: seq<Offer>)
    ensures HashAlwaysPrefix(limit, ops) <==> C.NoGap(Acks(limit, ops), Kepts(limit, ops))
  {
    SpoolIsCut(limit, ops);
    C.PrefixIffNoGap(Sizes(ops), Acks(limit, ops), Kepts(limit, ops));
    forall same | SameShape(ops, same)
      ensures C.AlwaysPrefix(Sizes(ops), Acks(limit, ops), Kepts(limit, ops)) ==>
        WriteAll(Fresh(limit), same).hashed <= WriteAll(Fresh(limit), same).out
    {
      ShapeCuts(limit, ops, same);
    }
    if HashAlwaysPrefix(limit, ops) {
      forall ps | C.Lengths(ps) == Sizes(ops)
        ensures C.Cut(ps, Acks(limit, ops)) <= C.Cut(ps, Kepts(limit, ops))
      {
        ShapeCuts(limit, ops, Filled(ops, ps));
      }
    }
  }

  /** A file that takes one of two bytes and then another write whole: neither spool nor hash is a prefix. */
  lemma ShortWriteLeavesGap(a: byte, b: byte, c: byte)
    requires b != c
    ensures var ops := [Offer([a, b], 1, false), Offer([c], 1, false)];
      && WriteAll(Fresh(10), ops).out == [a, c] && WriteAll(Fresh(10), ops).hashed == [c]
      && !(WriteAll(Fresh(10), ops).out <= Offered(ops))
      && (a != c ==> !(WriteAll(Fresh(10), ops).hashed <= WriteAll(Fresh(10), ops).out))
  {
    var ops := [Offer([a, b], 1, false), Offer([c], 1, false)];
    assert ops[..1] == [ops[0]] && [ops[0]][..0] == [];
    assert WriteAll(Fresh(10), [ops[0]]) == Call(Fresh(10), ops[0]).spool;
    assert Payloads(ops) == [[a, b], [c]];
    assert [[a, b], [c]][1..] == [[c]] && [[c]][1..] == [];
    assert Offered(ops)[1] == b;
  }

  // ---- Over a healthy file ----

  predicate Healthy(ops: seq<Offer>) {
    forall i :: 0 <= i < |ops| ==> ops[i].accepted >= |ops[i].p| && !ops[i].fileErr
  }

  /** The spool is what was offered, cut at the limit. */
  predicate Cut(s: Spool, limit: nat, offered: Bytes) {
    s.limit == limit && s.out == offered[..Min(limit, |offered|)] && s.remaining == limit - |s.out|
  }

  lemma CutStep(s: Spool, limit: nat, op: Offer, offered: Bytes)
    requires limit > 0 && Cut(s, limit, offered) && op.accepted >= |op.p| && !op.fileErr
    ensures Cut(Call(s, op).spool, limit, offered + op.p)
  {
    var all := offered + op.p;
    if |all| <= limit {
      assert s.out == offered;
      assert all[..|all|] == all;
    } else if |offered| < limit {
      assert s.out + op.p[..limit - |offered|] == all[..limit];
    } else {
      assert offered[..limit] == all[..limit];
    }
  }

  /**
   Over a file that never fails this holds for any calls at all, failed ones included; the hash is a
   prefix of the spool, and all of it until the limit is used up.
   */
  lemma {:induction false} CutAtLimit(limit: nat, ops: seq<Offer>)
    requires limit > 0 && Healthy(ops)
    ensures Cut(WriteAll(Fresh(limit), ops), limit, Offered(ops))
    ensures var s := WriteAll(Fresh(limit), ops);
      s.hashed <= s.out && (s.hashed == s.out || s.remaining == 0)
  {
    if ops != [] {
      var n := |ops| - 1;
      CutAtLimit(limit, ops[..n]);
      OfferedNext(ops, n);
      assert ops[..n + 1] == ops;
      CutStep(WriteAll(Fresh(limit), ops[..n]), limit, ops[n], Offered(ops[..n]));
    }
  }

  /**
   Over a file that never fails, a write succeeds exactly when the limit is not yet used up and the
   write fits; so non-empty writes all succeed iff the total fits, and nothing succeeds after an overflow.
   */
  lemma WriteSucceedsIff(limit: nat, ops: seq<Offer>, i: nat)
    requires limit > 0 && Healthy(ops) && i < |ops|
    ensures !Fails(Fresh(limit), ops, i) <==>
      |Offered(ops[..i])| < limit && |Offered(ops[..i + 1])| <= limit
  {
    CutAtLimit(limit, ops[..i]);
    OfferedNext(ops, i);
  }

  /** No write fails. */
  predicate AllSucceed(limit: nat, ops: seq<Offer>) {
    forall i: nat :: i < |ops| ==> !Fails(Fresh(limit), ops, i)
  }

  /** Over any file, non-empty writes all succeed iff the file takes each of them and the total fits. */
  lemma AllSucceedIffFits(limit: nat, ops: seq<Offer>)
    requires limit > 0 && (forall i :: 0 <= i < |ops| ==> ops[i].p != [])
    ensures AllSucceed(limit, ops) <==> Healthy(ops) && |Offered(ops)| <= limit
  {
    assert ops[..|ops|] == ops;
    if Healthy(ops) {
      forall i: nat | i < |ops| ensures !Fails(Fresh(limit), ops, i) <== |Offered(ops)| <= limit {
        WriteSucceedsIff(limit, ops, i);
        OfferedNext(ops, i);
        if i + 1 < |ops| {
          OfferedNext(ops, i + 1);
        }
      }
      if |ops| > 0 {
        WriteSucceedsIff(limit, ops, |ops| - 1);
      }
    } else {
      var i: nat :| i < |ops| && (ops[i].accepted < |ops[i].p| || ops[i].fileErr);
      assert Fails(Fresh(limit), ops, i);
    }
  }

  // ---- The objects themselves ----

  class SpoolFile {
    var content: Bytes

    constructor ()
      ensures content == []
    {
      content := [];
    }

    /** The operating system takes `accepted` bytes at most and may report an error. */
    method Write(p: Bytes, accepted: nat, fileErr: bool) returns (n: nat, failed: bool)
      modifies this
      ensures n == Min(accepted, |p|) && content == old(content) + p[..n]
      ensures failed <==> fileErr || n < |p|
    {
      n := Min(accepted, |p|);
      content := content + p[..n];
      failed := fileErr || n < |p|;
    }
  }

  class MaxBytesWriter {
    const w: SpoolFile
    const limit: nat
    var remaining: int

    constructor (w: SpoolFile, limit: nat)
      requires limit > 0
      ensures this.w == w && this.limit == limit && remaining == limit
    {
      this.w, this.limit, this.remaining := w, limit, limit;
    }

    /** The writer's state as a value; the hash belongs to the tee around it. */
    ghost function Value(hashed: Bytes): Spool
      reads this, w
    {
      Spool(limit, w.content, remaining, hashed)
    }

    method Write(p: Bytes, accepted: nat, fileErr: bool) returns (n: nat, failed: bool)
      requires limit > 0
      modifies this, w
      ensures forall h: Bytes :: Wrote(Value(h), n, failed) == LimitedWrite(old(Value(h)), p, accepted, fileErr)
    {
      if remaining <= 0 {
        return 0, true;
      }
      if |p| <= remaining {
        n, failed := w.Write(p, accepted, fileErr);
        remaining := remaining - n;
        return;
      }
      var allowed := remaining;
      n, failed := w.Write(p[..allowed], accepted, fileErr);
      remaining := remaining - n;
      if failed {
        return;
      }
      failed := true;
    }
  }
}

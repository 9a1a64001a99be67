/**
 The streaming pipeline shared by backup and restore, as a transition system.

   source goroutine  --pipe0-->  [inner codec goroutine  --pipe1-->]  outer codec (main thread)  -->  sink

 The inner stage exists in sealed mode only.  A backup runs encrypt (inner) and seal (outer), or
 encrypt alone (outer); a restore runs unseal (inner) and decrypt (outer), or decrypt alone.  Both
 pipes are io.Pipe rendezvous: a Write returns once its bytes are all consumed or either end is
 closed.  Every scheduling choice, chunk size and failure is a label of an action, so a statement
 about every sequence of actions is a statement about every interleaving, chunking and failure
 schedule.
 */
module Pipeline {
  import opened Base
  import opened Codecs
  import opened Limits

  /** nil, io.EOF itself, and every other error. */
  datatype Err = NoErr | EofErr | Fault

  /** The two ends of an io.Pipe; the first close of each end wins. */
  datatype Pipe = Pipe(werr: Option<Err>, rerr: Option<Err>) {
    predicate Done() {
      werr.Some? || rerr.Some?
    }

    /** PipeWriter.CloseWithError: nil is stored as io.EOF. */
    function CloseWrite(e: Err): Pipe {
      if werr.Some? then this else this.(werr := Some(if e == NoErr then EofErr else e))
    }

    /** PipeReader.CloseWithError. */
    function CloseRead(e: Err): Pipe {
      if rerr.Some? then this else this.(rerr := Some(if e == NoErr then Fault else e))
    }

    /** What a Read returns once the pipe is done. */
    function ReadError(): Err {
      if rerr.None? && werr.Some? then werr.value else Fault
    }
  }

  /** How the source behaves once its script has been written. */
  datatype Tail = Ends(err: Err) | Stalls

  /** `met` records that the current Write has met a Read at least once. */
  datatype SourcePc =
    | Ready
    | Offering(left: Bytes, met: bool)
    | SrcReturned(err: Err)
    | SrcClosed(err: Err)
    | SrcSent(err: Err)

  /** `acked` is the concatenation of the writes that returned nil: what a tee behind the pipe saw. */
  datatype Source = Source(pc: SourcePc, next: nat, acked: Bytes)

  datatype StagePc =
    | Idle
    | Starting
    | Reading
    | Writing(left: Bytes, closing: bool)
    | Returned(err: Err)
    | Closed(err: Err)
    | Sent(err: Err)

  /** A codec in an io.Copy loop; `input` and `output` are what it has read and successfully written. */
  datatype Stage = Stage(pc: StagePc, input: Bytes, output: Bytes) {

    /** The stage has read q and now owes its destination the new output. */
    function Got(codec: Codec, q: Bytes): Stage {
      Stage(Writing(Rest(codec.emitted(input), codec.emitted(input + q)), false), input + q, output)
    }

    /** A Read returned the error e. */
    function GotError(codec: Codec, e: Err): Stage {
      if e == EofErr && codec.final(input).Some? then
        this.(pc := Writing(Rest(codec.emitted(input), codec.final(input).value), true))
      else
        this.(pc := Returned(Fault))
    }

    /** The outcome a finished stage will report, if it has finished. */
    function Outcome(): Option<Err> {
      match pc
      case Returned(e) => Some(e)
      case Closed(e) => Some(e)
      case Sent(e) => Some(e)
      case _ => None
    }
  }

  /** The fixed parameters of a run. */
  datatype Plan = Plan(
    script: seq<Bytes>, tail: Tail, sealed: bool, first: Codec, last: Codec, limit: nat)
  {
    ghost predicate Valid() {
      first.Valid() && last.Valid()
    }

    /** Every byte the source has to offer. */
    function Total(): Bytes {
      Concat(script)
    }

    /** The sequential specification of the data path: the codecs applied to p one after the other. */
    function Through(p: Bytes): Option<Bytes> {
      if !sealed then last.final(p)
      else if first.final(p).Some? then last.final(first.final(p).value)
      else None
    }
  }

  datatype Core = Core(
    src: Source, p0: Pipe, inner: Stage, p1: Pipe, outer: Stage,
    count: nat, spool: Spool, cancelled: bool)

  datatype Who = Inner | Outer

  datatype SourceMove = Write | Ack | WriteFails(err: Err) | End | Stop(err: Err) | Close | Send

  datatype StageMove = Start | Abort | ReadError | WriteDone

  datatype Action =
    | Src(src: SourceMove)
    | Feed(k: nat)
    | Pass(k: nat)
    | Drain(k: nat, accepted: nat, fileErr: bool)
    | Local(who: Who, move: StageMove)
    | InnerWriteFails
    | InnerClose
    | InnerSend
    | CancelCtx

  function InitCore(plan: Plan, innerPc: StagePc): Core {
    Core(
      Source(Ready, 0, []), Pipe(None, None), Stage(innerPc, [], []), Pipe(None, None),
      Stage(Starting, [], []), 0, Fresh(plan.limit), false)
  }

  function StageOf(s: Core, who: Who): Stage {
    if who.Inner? then s.inner else s.outer
  }

  function PipeInto(plan: Plan, s: Core, who: Who): Pipe {
    if who.Outer? && plan.sealed then s.p1 else s.p0
  }

  function CodecOf(plan: Plan, who: Who): Codec {
    if who.Inner? then plan.first else plan.last
  }

  function SetStage(s: Core, who: Who, st: Stage): Core {
    if who.Inner? then s.(inner := st) else s.(outer := st)
  }

  /** The stage that reads pipe0. */
  function Head(plan: Plan): Who {
    if plan.sealed then Inner else Outer
  }

  predicate SourceEnabled(plan: Plan, src: Source, p0: Pipe, m: SourceMove) {
    match m
    case Write => src.pc.Ready? && src.next < |plan.script|
    case Ack => src.pc.Offering? && src.pc.left == [] && src.pc.met && src.next < |plan.script|
    case WriteFails(e) => src.pc.Offering? && !(src.pc.left == [] && src.pc.met) && p0.Done() && e != NoErr
    case End => src.pc.Ready? && src.next == |plan.script| && plan.tail.Ends?
    case Stop(e) => src.pc.Ready? && e != NoErr
    case Close => src.pc.SrcReturned?
    case Send => src.pc.SrcClosed?
  }

  function SourceStep(plan: Plan, src: Source, p0: Pipe, m: SourceMove): Source
    requires SourceEnabled(plan, src, p0, m)
  {
    match m
    case Write => src.(pc := Offering(plan.script[src.next], false))
    case Ack => Source(Ready, src.next + 1, src.acked + plan.script[src.next])
    case WriteFails(e) => src.(pc := SrcReturned(e))
    case End => src.(pc := SrcReturned(plan.tail.err))
    case Stop(e) => src.(pc := SrcReturned(e))
    case Close => src.(pc := SrcClosed(src.pc.err))
    case Send => src.(pc := SrcSent(src.pc.err))
  }

  predicate StageEnabled(st: Stage, from: Pipe, m: StageMove) {
    match m
    case Start => st.pc.Starting?
    case Abort => st.pc.Starting? || st.pc.Reading?
    case ReadError => st.pc.Reading? && from.Done()
    case WriteDone => st.pc.Writing? && st.pc.left == []
  }

  function StageStep(codec: Codec, st: Stage, from: Pipe, m: StageMove): Stage
    requires StageEnabled(st, from, m)
  {
    match m
    case Start => st.(pc := Writing(codec.emitted([]), false))
    case Abort => st.(pc := Returned(Fault))
    case ReadError => st.GotError(codec, from.ReadError())
    case WriteDone => st.(pc := if st.pc.closing then Returned(NoErr) else Reading)
  }

  predicate Enabled(plan: Plan, s: Core, a: Action) {
    match a
    case Src(m) => SourceEnabled(plan, s.src, s.p0, m)
    case Feed(k) =>
      && s.src.pc.Offering? && StageOf(s, Head(plan)).pc.Reading?
      && k <= |s.src.pc.left| && (k == 0 ==> s.src.pc.left == [] && !s.src.pc.met)
    case Pass(k) =>
      && plan.sealed && s.inner.pc.Writing? && s.outer.pc.Reading? && 0 < k <= |s.inner.pc.left|
    case Drain(k, _, _) => s.outer.pc.Writing? && 0 < k <= |s.outer.pc.left|
    case Local(w, m) => StageEnabled(StageOf(s, w), PipeInto(plan, s, w), m)
    case InnerWriteFails => s.inner.pc.Writing? && s.inner.pc.left != [] && s.p1.Done()
    case InnerClose => s.inner.pc.Returned?
    case InnerSend => s.inner.pc.Closed?
    case CancelCtx => !s.cancelled
  }

  function Apply(plan: Plan, s: Core, a: Action): Core
    requires Enabled(plan, s, a)
  {
    match a
    case Src(m) =>
      s.(src := SourceStep(plan, s.src, s.p0, m),
         p0 := if m.Close? then s.p0.CloseWrite(s.src.pc.err) else s.p0)
    case Feed(k) =>
      var q := s.src.pc.left[..k];
      var w := Head(plan);
      SetStage(s, w, StageOf(s, w).Got(CodecOf(plan, w), q)).(
        src := s.src.(pc := Offering(s.src.pc.left[k..], true)), count := s.count + k)
    case Pass(k) =>
      var q := s.inner.pc.left[..k];
      s.(inner := Stage(Writing(s.inner.pc.left[k..], s.inner.pc.closing), s.inner.input, s.inner.output + q),
         outer := s.outer.Got(plan.last, q))
    case Drain(k, accepted, fileErr) =>
      var q := s.outer.pc.left[..k];
      var w := TeeWrite(s.spool, q, accepted, fileErr);
      s.(spool := w.spool,
         outer := if w.failed then s.outer.(pc := Returned(Fault))
                  else Stage(Writing(s.outer.pc.left[k..], s.outer.pc.closing), s.outer.input, s.outer.output + q))
    case Local(w, m) =>
      SetStage(s, w, StageStep(CodecOf(plan, w), StageOf(s, w), PipeInto(plan, s, w), m))
    case InnerWriteFails => s.(inner := s.inner.(pc := Returned(Fault)))
    case InnerClose =>
      s.(inner := s.inner.(pc := Closed(s.inner.pc.err)), p1 := s.p1.CloseWrite(s.inner.pc.err))
    case InnerSend => s.(inner := s.inner.(pc := Sent(s.inner.pc.err)))
    case CancelCtx => s.(cancelled := true)
  }

  // ---- What every interleaving keeps ----

  /** Bytes are neither lost, duplicated nor reordered on pipe0, and a nil end means all were taken. */
  ghost predicate SourceInv(plan: Plan, s: Core) {
    var taken := StageOf(s, Head(plan)).input;
    && s.src.next <= |plan.script|
    && s.src.acked == Concat(plan.script[..s.src.next])
    && s.count == |taken|
    && (match s.src.pc
        case Ready => taken == s.src.acked
        case Offering(left, met) =>
          && s.src.next < |plan.script|
          && taken + left == s.src.acked + plan.script[s.src.next]
          && |left| <= |plan.script[s.src.next]|
        case SrcReturned(e) => SourceEndInv(plan, s, taken, e)
        case SrcClosed(e) => SourceEndInv(plan, s, taken, e)
        case SrcSent(e) => SourceEndInv(plan, s, taken, e))
    && s.p0.werr == (match s.src.pc
                     case SrcClosed(e) => Some(if e == NoErr then EofErr else e)
                     case SrcSent(e) => Some(if e == NoErr then EofErr else e)
                     case _ => None)
  }

  ghost predicate SourceEndInv(plan: Plan, s: Core, taken: Bytes, e: Err) {
    && s.src.acked <= taken <= plan.Total()
    && (e == NoErr ==> plan.tail == Ends(NoErr) && taken == s.src.acked == plan.Total())
  }

  /** A stage has written exactly what its codec emits for its input, up to what it still owes. */
  ghost predicate StageInv(codec: Codec, st: Stage, from: Pipe) {
    match st.pc
    case Idle => st.input == [] && st.output == []
    case Starting => st.input == [] && st.output == []
    case Reading => st.output == codec.emitted(st.input)
    case Writing(left, closing) =>
      if closing then from.werr == Some(EofErr) && codec.final(st.input) == Some(st.output + left)
      else st.output + left == codec.emitted(st.input)
    case Returned(e) => EndInv(codec, st, from, e)
    case Closed(e) => EndInv(codec, st, from, e)
    case Sent(e) => EndInv(codec, st, from, e)
  }

  ghost predicate EndInv(codec: Codec, st: Stage, from: Pipe, e: Err) {
    && e != EofErr
    && (e == NoErr ==> from.werr == Some(EofErr) && codec.final(st.input) == Some(st.output))
  }

  ghost predicate InnerInv(plan: Plan, s: Core) {
    && StageInv(plan.first, s.inner, s.p0)
    && (!plan.sealed ==> s.inner.pc.Idle?)
    && (plan.sealed ==> s.inner.output == s.outer.input)
    && s.p1.werr == (match s.inner.pc
                     case Closed(e) => Some(if e == NoErr then EofErr else e)
                     case Sent(e) => Some(if e == NoErr then EofErr else e)
                     case _ => None)
  }

  ghost predicate SpoolInv(s: Core) {
    && s.spool.hashed == s.outer.output
    && s.spool.hashed <= s.spool.out
    && (s.outer.Outcome() != Some(Fault) ==> s.spool.hashed == s.spool.out)
    && s.spool.remaining == s.spool.limit - |s.spool.out|
    && (s.spool.limit > 0 ==> s.spool.remaining >= 0)
  }

  ghost predicate Inv(plan: Plan, s: Core) {
    && SourceInv(plan, s)
    && InnerInv(plan, s)
    && StageInv(plan.last, s.outer, PipeInto(plan, s, Outer))
    && !s.outer.pc.Idle? && !s.outer.pc.Closed? && !s.outer.pc.Sent?
    && SpoolInv(s)
    && s.spool.limit == plan.limit
  }

  lemma InitInv(plan: Plan, innerPc: StagePc)
    requires innerPc.Idle? || (plan.sealed && innerPc.Starting?)
    ensures Inv(plan, InitCore(plan, innerPc))
  {
  }

  lemma HeadInputPrefix(plan: Plan, s: Core)
    requires SourceInv(plan, s)
    ensures s.src.acked <= StageOf(s, Head(plan)).input <= plan.Total()
  {
    var taken := StageOf(s, Head(plan)).input;
    if s.src.next < |plan.script| {
      ConcatNext(plan.script, s.src.next);
      if s.src.pc.Offering? {
        assert taken == (s.src.acked + plan.script[s.src.next])[..|taken|];
        assert plan.Total() == s.src.acked + plan.script[s.src.next] + Concat(plan.script[s.src.next + 1..]);
      }
    } else {
      assert plan.script[..s.src.next] == plan.script;
    }
  }

  lemma SourceStepKeepsSourceInv(plan: Plan, s: Core, m: SourceMove)
    requires SourceInv(plan, s) && Enabled(plan, s, Src(m))
    ensures SourceInv(plan, Apply(plan, s, Src(m)))
  {
    HeadInputPrefix(plan, s);
    if m.Ack? {
      ConcatNext(plan.script, s.src.next);
    } else if m.End? {
      assert plan.script[..s.src.next] == plan.script;
    }
  }

  lemma SourceStepInv(plan: Plan, s: Core, m: SourceMove)
    requires Inv(plan, s) && Enabled(plan, s, Src(m))
    ensures Inv(plan, Apply(plan, s, Src(m)))
  {
    SourceStepKeepsSourceInv(plan, s, m);
    var t := Apply(plan, s, Src(m));
    assert t.inner == s.inner && t.outer == s.outer && t.spool == s.spool && t.p1 == s.p1;
    assert s.p0.werr.Some? ==> t.p0 == s.p0;
  }

  lemma FeedInv(plan: Plan, s: Core, k: nat)
    requires plan.Valid() && Inv(plan, s) && Enabled(plan, s, Feed(k))
    ensures Inv(plan, Apply(plan, s, Feed(k)))
  {
    var w := Head(plan);
    var st := StageOf(s, w);
    var q := s.src.pc.left[..k];
    assert q + s.src.pc.left[k..] == s.src.pc.left;
    assert st.input <= st.input + q;
    assert CodecOf(plan, w).emitted(st.input) <= CodecOf(plan, w).emitted(st.input + q);
    assert st.input + q + s.src.pc.left[k..] == st.input + s.src.pc.left;
  }

  lemma PassInv(plan: Plan, s: Core, k: nat)
    requires plan.Valid() && Inv(plan, s) && Enabled(plan, s, Pass(k))
    ensures Inv(plan, Apply(plan, s, Pass(k)))
  {
    var q := s.inner.pc.left[..k];
    assert s.inner.output + q + s.inner.pc.left[k..] == s.inner.output + s.inner.pc.left;
    assert s.outer.input <= s.outer.input + q;
    assert plan.last.emitted(s.outer.input) <= plan.last.emitted(s.outer.input + q);
  }

  lemma TeeWriteInv(s: Spool, p: Bytes, accepted: nat, fileErr: bool)
    requires s.hashed == s.out && s.remaining == s.limit - |s.out| && (s.limit > 0 ==> s.remaining >= 0)
    ensures var w := TeeWrite(s, p, accepted, fileErr);
      && w.spool.limit == s.limit && w.spool.remaining == s.limit - |w.spool.out|
      && (s.limit > 0 ==> w.spool.remaining >= 0)
      && s.out <= w.spool.out
      && (if w.failed then w.spool.hashed == s.hashed else w.spool.hashed == w.spool.out == s.out + p)
  {
  }

  lemma DrainInv(plan: Plan, s: Core, k: nat, accepted: nat, fileErr: bool)
    requires Inv(plan, s) && Enabled(plan, s, Drain(k, accepted, fileErr))
    ensures Inv(plan, Apply(plan, s, Drain(k, accepted, fileErr)))
  {
    var left := s.outer.pc.left;
    assert s.outer.output + left[..k] + left[k..] == s.outer.output + left;
    TeeWriteInv(s.spool, left[..k], accepted, fileErr);
    var t := Apply(plan, s, Drain(k, accepted, fileErr));
    assert t.src == s.src && t.p0 == s.p0 && t.p1 == s.p1 && t.inner == s.inner && t.count == s.count;
    assert t.outer.input == s.outer.input;
    assert SpoolInv(t);
  }

  lemma StageStepInv(codec: Codec, st: Stage, from: Pipe, m: StageMove)
    requires codec.Valid() && StageInv(codec, st, from) && StageEnabled(st, from, m)
    ensures var t := StageStep(codec, st, from, m);
      StageInv(codec, t, from) && t.input == st.input && t.output == st.output
  {
    assert st.input <= st.input && st.output + [] == st.output;
  }

  lemma LocalInv(plan: Plan, s: Core, w: Who, m: StageMove)
    requires plan.Valid() && Inv(plan, s) && Enabled(plan, s, Local(w, m))
    ensures Inv(plan, Apply(plan, s, Local(w, m)))
  {
    StageStepInv(CodecOf(plan, w), StageOf(s, w), PipeInto(plan, s, w), m);
    var t := Apply(plan, s, Local(w, m));
    assert t.src == s.src && t.p0 == s.p0 && t.p1 == s.p1 && t.spool == s.spool && t.count == s.count;
    match w {
      case Inner =>
        assert t.outer == s.outer;
        assert InnerInv(plan, t);
      case Outer =>
        assert t.inner == s.inner;
        assert SpoolInv(t);
    }
  }

  lemma InnerEndInv(plan: Plan, s: Core, a: Action)
    requires Inv(plan, s) && Enabled(plan, s, a)
    requires a.InnerWriteFails? || a.InnerClose? || a.InnerSend? || a.CancelCtx?
    ensures Inv(plan, Apply(plan, s, a))
  {
    var t := Apply(plan, s, a);
    assert t.src == s.src && t.outer == s.outer && t.spool == s.spool && t.p0 == s.p0;
    assert InnerInv(plan, t);
  }

  /** Every step keeps the invariant. */
  lemma StepInv(plan: Plan, s: Core, a: Action)
    requires plan.Valid() && Inv(plan, s) && Enabled(plan, s, a)
    ensures Inv(plan, Apply(plan, s, a))
  {
    match a
    case Src(m) => SourceStepInv(plan, s, m);
    case Feed(k) => FeedInv(plan, s, k);
    case Pass(k) => PassInv(plan, s, k);
    case Drain(k, n, e) => DrainInv(plan, s, k, n, e);
    case Local(w, m) => LocalInv(plan, s, w, m);
    case InnerWriteFails => InnerEndInv(plan, s, a);
    case InnerClose => InnerEndInv(plan, s, a);
    case InnerSend => InnerEndInv(plan, s, a);
    case CancelCtx => InnerEndInv(plan, s, a);
  }

  /** What no step undoes. */
  lemma StepKeeps(plan: Plan, s: Core, a: Action)
    requires Inv(plan, s) && Enabled(plan, s, a)
    ensures var t := Apply(plan, s, a);
      && (s.outer.pc.Returned? ==> t.outer == s.outer && t.spool == s.spool)
      && (s.inner.pc.Sent? || s.inner.pc.Idle? ==> t.inner.pc == s.inner.pc)
      && (!s.inner.pc.Idle? ==> !t.inner.pc.Idle?)
      && (s.src.pc.SrcSent? ==> t.src == s.src && t.count == s.count)
      && (s.cancelled ==> t.cancelled)
      && t.p0.rerr == s.p0.rerr && t.p1.rerr == s.p1.rerr
  {
  }

  /**
   The heart of the safety argument: once the outer codec has returned nil, the hashed bytes are the
   spooled bytes, and they are the codecs applied to everything the head stage took from the source.
   */
  lemma OuterSuccess(plan: Plan, s: Core)
    requires Inv(plan, s) && s.outer.Outcome() == Some(NoErr)
    ensures s.spool.out == s.spool.hashed
    ensures plan.Through(StageOf(s, Head(plan)).input) == Some(s.spool.out)
    ensures s.p0.werr == Some(EofErr)
    ensures plan.sealed ==> s.inner.Outcome() == Some(NoErr) && !s.inner.pc.Returned?
    ensures s.src.pc.SrcClosed? || s.src.pc.SrcSent?
    ensures plan.limit > 0 ==> |s.spool.out| <= plan.limit
  {
  }

  // ---- What the environment may do ----

  /**
   Every chunking and every failure is among the schedules: data moves in pieces of any size, the source
   can stop with any error between two writes, a codec can fail before and after any byte, and the spool
   file can take any part of a write and report an error.
   */
  lemma AnythingCanHappen(plan: Plan, s: Core, k: nat, e: Err, accepted: nat, fileErr: bool)
    ensures s.src.pc.Offering? && StageOf(s, Head(plan)).pc.Reading? && 0 < k <= |s.src.pc.left| ==> Enabled(plan, s, Feed(k))
    ensures plan.sealed && s.inner.pc.Writing? && s.outer.pc.Reading? && 0 < k <= |s.inner.pc.left| ==>
      Enabled(plan, s, Pass(k))
    ensures s.outer.pc.Writing? && 0 < k <= |s.outer.pc.left| ==> Enabled(plan, s, Drain(k, accepted, fileErr))
    ensures s.outer.pc.Writing? && 0 < k <= |s.outer.pc.left| && fileErr ==>
      Apply(plan, s, Drain(k, accepted, fileErr)).outer.pc == Returned(Fault)
    ensures s.src.pc.Ready? && e != NoErr ==>
      Enabled(plan, s, Src(Stop(e))) && Apply(plan, s, Src(Stop(e))).src.pc == SrcReturned(e)
    ensures s.src.pc.Offering? && |s.src.pc.left| > 0 && s.p0.Done() && e != NoErr ==>
      Enabled(plan, s, Src(WriteFails(e))) && Apply(plan, s, Src(WriteFails(e))).src.pc == SrcReturned(e)
    ensures forall w: Who :: StageOf(s, w).pc.Starting? || StageOf(s, w).pc.Reading? ==>
      Enabled(plan, s, Local(w, Abort)) && StageOf(Apply(plan, s, Local(w, Abort)), w).pc == Returned(Fault)
  {
  }

  /**
   The laws of a pipe: the first close of an end wins; a reader sees what the writer closed with, nil as
   an end of file; and once it has closed its own end it reads nothing but an error.
   */
  lemma PipeLaws(p: Pipe, e: Err, f: Err)
    ensures p.CloseWrite(e).CloseWrite(f) == p.CloseWrite(e) && p.CloseRead(e).CloseRead(f) == p.CloseRead(e)
    ensures p.CloseWrite(e).Done() && p.CloseRead(e).Done()
    ensures p.werr.None? && p.rerr.None? ==> p.CloseWrite(e).ReadError() == if e == NoErr then EofErr else e
    ensures p.CloseRead(e).ReadError() == Fault
    ensures p.CloseWrite(e).rerr == p.rerr && p.CloseRead(e).werr == p.werr
  {
  }

  // ---- Progress: nothing is ever stuck, and everything ends ----

  /** Steps the environment cannot withhold and that inject no failure. */
  predicate Certain(s: Core, a: Action) {
    match a
    case Src(m) => m.Stop? ==> s.cancelled
    case Local(_, m) => !m.Abort?
    case Drain(k, accepted, fileErr) => accepted >= k && !fileErr
    case CancelCtx => false
    case _ => true
  }

  /** The source waits for something only a cancellation can end. */
  predicate Stalled(plan: Plan, s: Core) {
    s.src.pc.Ready? && s.src.next == |plan.script| && plan.tail.Stalls? && !s.cancelled
  }

  /** Nothing has failed and every reader waits for a stalled source: the one state in which nobody can step. */
  predicate Waits(plan: Plan, s: Core) {
    && Stalled(plan, s) && s.p0.rerr.None? && (plan.sealed ==> s.p1.rerr.None?)
    && StageOf(s, Head(plan)).pc.Reading? && s.outer.pc.Reading?
  }

  /** Some stage has failed, or the main thread has begun to clean up. */
  predicate Failed(s: Core) {
    || s.outer.Outcome() == Some(Fault) || s.inner.Outcome() == Some(Fault)
    || s.cancelled || s.p0.rerr.Some?
  }

  lemma FailedStays(plan: Plan, s: Core, a: Action)
    requires Inv(plan, s) && Enabled(plan, s, a) && Failed(s)
    ensures Failed(Apply(plan, s, a)) && !Waits(plan, s)
  {
  }

  /** In such a state no process has a step that the environment cannot withhold. */
  lemma WaitsIsBlocked(plan: Plan, s: Core, a: Action)
    requires Inv(plan, s) && Waits(plan, s) && Enabled(plan, s, a)
    ensures !Certain(s, a)
  {
  }

  predicate SourceEnded(s: Core) {
    s.src.pc.SrcSent?
  }

  predicate InnerEnded(s: Core) {
    s.inner.pc.Idle? || s.inner.pc.Sent?
  }

  /** The source can step whenever its reader waits or the pipe is done. */
  lemma SourceRuns(plan: Plan, s: Core) returns (a: Action)
    requires Inv(plan, s) && !SourceEnded(s) && !Stalled(plan, s)
    requires s.p0.Done() || StageOf(s, Head(plan)).pc.Reading?
    ensures Enabled(plan, s, a) && Certain(s, a)
    ensures !(a.Local? && a.who.Outer?)
  {
    match s.src.pc
    case Ready =>
      a := Src(if s.src.next < |plan.script| then Write else if plan.tail.Ends? then End else Stop(Fault));
    case Offering(left, met) =>
      if left == [] && met {
        a := Src(Ack);
      } else if s.p0.Done() {
        a := Src(WriteFails(Fault));
      } else {
        a := Feed(|left|);
      }
    case SrcReturned(_) => a := Src(Close);
    case SrcClosed(_) => a := Src(Send);
  }

  lemma StageRuns(plan: Plan, s: Core, w: Who) returns (a: Action)
    requires Inv(plan, s)
    requires var st := StageOf(s, w);
      st.pc.Starting? || (st.pc.Writing? && (w.Outer? || st.pc.left == []))
    ensures Enabled(plan, s, a) && Certain(s, a)
    ensures a.Local? ==> a.who == w
  {
    var st := StageOf(s, w);
    if st.pc.Starting? {
      a := Local(w, Start);
    } else if st.pc.left == [] {
      a := Local(w, WriteDone);
    } else {
      a := Drain(|st.pc.left|, |st.pc.left|, false);
    }
  }

  lemma InnerRuns(plan: Plan, s: Core) returns (a: Action)
    requires Inv(plan, s) && plan.sealed && !InnerEnded(s)
    requires s.inner.pc.Reading? && s.p0.rerr.None? ==> !Stalled(plan, s)
    requires s.p1.Done() || s.outer.pc.Reading?
    ensures Enabled(plan, s, a) && Certain(s, a)
    ensures !(a.Local? && a.who.Outer?)
  {
    match s.inner.pc
    case Starting => a := StageRuns(plan, s, Inner);
    case Reading =>
      if s.p0.Done() { a := Local(Inner, ReadError); } else { a := SourceRuns(plan, s); }
    case Writing(left, _) =>
      if left == [] {
        a := Local(Inner, WriteDone);
      } else if s.p1.Done() {
        a := InnerWriteFails;
      } else {
        a := Pass(|left|);
      }
    case Returned(_) => a := InnerClose;
    case Closed(_) => a := InnerSend;
  }

  /** While the outer codec has not returned, some process can step, unless all wait for a stalled source. */
  lemma OuterRuns(plan: Plan, s: Core) returns (a: Action)
    requires Inv(plan, s) && s.outer.Outcome() == None && !Waits(plan, s)
    requires plan.sealed ==> !s.inner.pc.Idle?
    ensures Enabled(plan, s, a) && Certain(s, a)
  {
    if !s.outer.pc.Reading? {
      a := StageRuns(plan, s, Outer);
    } else if PipeInto(plan, s, Outer).Done() {
      a := Local(Outer, ReadError);
    } else if plan.sealed {
      a := InnerRuns(plan, s);
    } else {
      a := SourceRuns(plan, s);
    }
  }

  /** Once the main thread has closed both read ends, source and inner codec run to their ends. */
  lemma ClosedRuns(plan: Plan, s: Core) returns (a: Action)
    requires Inv(plan, s) && !(SourceEnded(s) && InnerEnded(s))
    requires s.cancelled && s.p0.rerr.Some? && (s.inner.pc.Idle? || s.p1.rerr.Some?)
    ensures Enabled(plan, s, a) && Certain(s, a)
    ensures !(a.Local? && a.who.Outer?)
  {
    if !SourceEnded(s) {
      a := SourceRuns(plan, s);
    } else {
      a := InnerRuns(plan, s);
    }
  }

  /** The lexicographic measure: upstream work first. */
  datatype Measure = Measure(
    cancel: nat, chunks: nat, srcPhase: nat, srcLeft: nat,
    innerPhase: nat, innerLeft: nat, outerPhase: nat, outerLeft: nat)

  function Phase(pc: StagePc): nat {
    match pc
    case Idle => 7
    case Starting => 6
    case Reading => 5
    case Writing(_, closing) => if closing then 4 else 5
    case Returned(_) => 3
    case Closed(_) => 2
    case Sent(_) => 1
  }

  function Owed(pc: StagePc): nat {
    if pc.Writing? then |pc.left| + 1 else 0
  }

  function MeasureOf(plan: Plan, s: Core): Measure
    requires s.src.next <= |plan.script|
  {
    Measure(
      if s.cancelled then 0 else 1,
      |plan.script| - s.src.next,
      match s.src.pc
      case Ready => 5
      case Offering(_, _) => 4
      case SrcReturned(_) => 3
      case SrcClosed(_) => 2
      case SrcSent(_) => 1,
      if s.src.pc.Offering? then 2 * |s.src.pc.left| + (if s.src.pc.met then 0 else 1) else 0,
      Phase(s.inner.pc), Owed(s.inner.pc), Phase(s.outer.pc), Owed(s.outer.pc))
  }

  predicate Below(x: Measure, y: Measure) {
    x.cancel < y.cancel || (x.cancel == y.cancel && (
    x.chunks < y.chunks || (x.chunks == y.chunks && (
    x.srcPhase < y.srcPhase || (x.srcPhase == y.srcPhase && (
    x.srcLeft < y.srcLeft || (x.srcLeft == y.srcLeft && (
    x.innerPhase < y.innerPhase || (x.innerPhase == y.innerPhase && (
    x.innerLeft < y.innerLeft || (x.innerLeft == y.innerLeft && (
    x.outerPhase < y.outerPhase || (x.outerPhase == y.outerPhase &&
    x.outerLeft < y.outerLeft)))))))))))))
  }

  lemma SourceDecreases(plan: Plan, s: Core, m: SourceMove)
    requires Inv(plan, s) && Enabled(plan, s, Src(m))
    ensures Apply(plan, s, Src(m)).src.next <= |plan.script|
    ensures Below(MeasureOf(plan, Apply(plan, s, Src(m))), MeasureOf(plan, s))
  {
  }

  lemma LocalDecreases(plan: Plan, s: Core, w: Who, m: StageMove)
    requires Inv(plan, s) && Enabled(plan, s, Local(w, m))
    ensures Apply(plan, s, Local(w, m)).src == s.src
    ensures Below(MeasureOf(plan, Apply(plan, s, Local(w, m))), MeasureOf(plan, s))
  {
    var st := StageOf(s, w);
    var t := StageStep(CodecOf(plan, w), st, PipeInto(plan, s, w), m);
    assert Phase(t.pc) < Phase(st.pc) || (Phase(t.pc) == Phase(st.pc) && Owed(t.pc) < Owed(st.pc));
  }

  lemma TransferDecreases(plan: Plan, s: Core, a: Action)
    requires Inv(plan, s) && Enabled(plan, s, a) && !a.Src? && !a.Local?
    ensures Apply(plan, s, a).src.next == s.src.next
    ensures Below(MeasureOf(plan, Apply(plan, s, a)), MeasureOf(plan, s))
  {
  }

  /** Every step of every process, failing or not, decreases the measure. */
  lemma StepDecreases(plan: Plan, s: Core, a: Action)
    requires Inv(plan, s) && Enabled(plan, s, a)
    ensures Apply(plan, s, a).src.next <= |plan.script|
    ensures Below(MeasureOf(plan, Apply(plan, s, a)), MeasureOf(plan, s))
  {
    if a.Src? {
      SourceDecreases(plan, s, a.src);
    } else if a.Local? {
      LocalDecreases(plan, s, a.who, a.move);
    } else {
      TransferDecreases(plan, s, a);
    }
  }

  // ---- Runs without injected failures have one outcome ----

  /** The plan alone forces the outer codec to fail: a bad source, undecodable input, or the limit. */
  ghost predicate Doomed(plan: Plan) {
    || plan.tail == Ends(Fault)
    || plan.Through(plan.Total()).None?
    || (plan.limit > 0 && |plan.Through(plan.Total()).value| > plan.limit)
  }

  /** No failure is injected; a decoder may reject early only what it could never accept. */
  ghost predicate Benign(plan: Plan, s: Core, a: Action) {
    Certain(s, a) || (a.Local? && a.move.Abort? && plan.Through(plan.Total()).None?)
  }

  ghost predicate Troubled(plan: Plan, s: Core) {
    || s.outer.Outcome() == Some(Fault)
    || s.inner.Outcome() == Some(Fault)
    || s.cancelled || s.p0.rerr.Some? || s.p1.rerr.Some?
  }

  ghost predicate EndedAsPlanned(plan: Plan, s: Core) {
    match s.src.pc
    case Ready => true
    case Offering(_, _) => true
    case SrcReturned(e) => plan.tail == Ends(e) && StageOf(s, Head(plan)).input == plan.Total()
    case SrcClosed(e) => plan.tail == Ends(e) && StageOf(s, Head(plan)).input == plan.Total()
    case SrcSent(e) => plan.tail == Ends(e) && StageOf(s, Head(plan)).input == plan.Total()
  }

  ghost predicate Clean(plan: Plan, s: Core) {
    && (Doomed(plan) || !Troubled(plan, s))
    && (s.cancelled || s.p0.rerr.Some? || EndedAsPlanned(plan, s))
  }

  /** What the outer stage has written, or owes, is a prefix of the sequential result. */
  lemma OuterOwesPrefix(plan: Plan, s: Core)
    requires plan.Valid() && Inv(plan, s) && !Doomed(plan) && Clean(plan, s) && s.outer.pc.Writing?
    ensures s.outer.output + s.outer.pc.left <= plan.Through(plan.Total()).value
  {
    HeadInputPrefix(plan, s);
    if plan.sealed {
      var mid := plan.first.final(plan.Total()).value;
      assert s.inner.output <= mid by { InnerOutputPrefix(plan, s); }
      if s.outer.pc.closing {
        assert s.inner.Outcome() == Some(NoErr);
      }
    }
  }

  lemma InnerOutputPrefix(plan: Plan, s: Core)
    requires plan.Valid() && Inv(plan, s) && plan.sealed && !Doomed(plan) && Clean(plan, s)
    ensures s.inner.output <= plan.first.final(plan.Total()).value
  {
    HeadInputPrefix(plan, s);
    var full := plan.first.final(plan.Total()).value;
    match s.inner.pc
    case Idle =>
    case Starting =>
    case Reading =>
    case Writing(left, closing) => assert s.inner.output <= s.inner.output + left <= full;
    case Returned(e) => assert e == NoErr;
    case Closed(e) => assert e == NoErr;
    case Sent(e) => assert e == NoErr;
  }

  lemma LocalClean(plan: Plan, s: Core, w: Who, m: StageMove)
    requires plan.Valid() && Inv(plan, s) && Clean(plan, s)
    requires Enabled(plan, s, Local(w, m)) && Benign(plan, s, Local(w, m))
    ensures Clean(plan, Apply(plan, s, Local(w, m)))
  {
  }

  /** Benign steps keep the run clean. */
  lemma StepClean(plan: Plan, s: Core, a: Action)
    requires plan.Valid() && Inv(plan, s) && Clean(plan, s)
    requires Enabled(plan, s, a) && Benign(plan, s, a)
    ensures Clean(plan, Apply(plan, s, a))
  {
    if a.Local? {
      LocalClean(plan, s, a.who, a.move);
    } else if a.Src? {
      if a.src.End? {
        assert plan.script[..s.src.next] == plan.script;
      }
    } else if a.Drain? && !Doomed(plan) {
      OuterOwesPrefix(plan, s);
    }
  }
}

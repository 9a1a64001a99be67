/**
 The main thread of RunBackup around the streaming pipeline: from starting the goroutines to the
 decision whether to upload.  Its cleanup after a failure (cancel, close the read ends) and its joins
 (receive from the error channels, which are buffered) are separate steps, interleaved arbitrarily
 with the other processes.
 */
module BackupPipeline {
  import opened Base
  import opened Codecs
  import Limits
  import P = Pipeline

  datatype Verdict = EncryptFailed | SourceFailed | EmptySource | Upload

  /** `failed` stands for encryptErr != nil. */
  datatype MainPc =
    | Encoding
    | Cancelling
    | ClosingSource
    | ClosingInner
    | JoiningInner(failed: bool)
    | JoiningSource(failed: bool)
    | ClosingSpool(failed: bool, sourceErr: P.Err)
    | Judging(failed: bool, sourceErr: P.Err)
    | Done(verdict: Verdict)

  datatype State = State(core: P.Core, main: MainPc, spoolOpen: bool)

  datatype Action = Other(step: P.Action) | Main(closeFails: bool)

  function Init(plan: P.Plan): State {
    State(P.InitCore(plan, if plan.sealed then P.Starting else P.Idle), Encoding, true)
  }

  predicate Enabled(plan: P.Plan, s: State, a: Action) {
    match a
    case Other(step) => P.Enabled(plan, s.core, step)
    case Main(_) =>
      match s.main
      case Encoding => s.core.outer.pc.Returned?
      case JoiningInner(_) => s.core.inner.pc.Sent?
      case JoiningSource(_) => s.core.src.pc.SrcSent?
      case Done(_) => false
      case _ => true
  }

  function Apply(plan: P.Plan, s: State, a: Action): State
    requires Enabled(plan, s, a)
  {
    match a
    case Other(step) => s.(core := P.Apply(plan, s.core, step))
    case Main(closeFails) =>
      match s.main
      case Encoding =>
        s.(main := if s.core.outer.pc.err != P.NoErr then Cancelling
                   else if plan.sealed then JoiningInner(false) else JoiningSource(false))
      case Cancelling => s.(core := s.core.(cancelled := true), main := ClosingSource)
      case ClosingSource =>
        s.(core := s.core.(p0 := s.core.p0.CloseRead(P.Fault)),
           main := if plan.sealed then ClosingInner else JoiningSource(true))
      case ClosingInner => s.(core := s.core.(p1 := s.core.p1.CloseRead(P.Fault)), main := JoiningInner(true))
      case JoiningInner(failed) => s.(main := JoiningSource(failed || s.core.inner.pc.err != P.NoErr))
      case JoiningSource(failed) => s.(main := ClosingSpool(failed, s.core.src.pc.err))
      case ClosingSpool(failed, e) => s.(main := Judging(failed || closeFails, e), spoolOpen := false)
      case Judging(failed, e) => s.(main := Done(Judge(failed, e, s.core.count)))
  }

  /** The three checks between the pipeline and the upload, in their order. */
  function Judge(failed: bool, sourceErr: P.Err, count: nat): Verdict {
    if failed then EncryptFailed
    else if sourceErr != P.NoErr then SourceFailed
    else if count == 0 then EmptySource
    else Upload
  }

  // ---- Runs ----

  predicate Runs(plan: P.Plan, s: State, acts: seq<Action>)
    decreases |acts|
  {
    acts == [] || (Enabled(plan, s, acts[0]) && Runs(plan, Apply(plan, s, acts[0]), acts[1..]))
  }

  function After(plan: P.Plan, s: State, acts: seq<Action>): State
    requires Runs(plan, s, acts)
    decreases |acts|
  {
    if acts == [] then s else After(plan, Apply(plan, s, acts[0]), acts[1..])
  }

  // ---- The invariant ----

  ghost predicate MainInv(plan: P.Plan, s: State) {
    var c := s.core;
    && (s.spoolOpen <==> !s.main.Judging? && !s.main.Done?)
    && (match s.main
        case Encoding => true
        case Cancelling => c.outer.pc == P.Returned(P.Fault)
        case ClosingSource => c.outer.pc == P.Returned(P.Fault) && c.cancelled
        case ClosingInner => c.outer.pc == P.Returned(P.Fault) && c.cancelled && c.p0.rerr.Some? && plan.sealed
        case JoiningInner(f) => plan.sealed && OuterEnd(plan, c, f)
        case JoiningSource(f) => OuterEnd(plan, c, f) && P.InnerEnded(c)
        case ClosingSpool(f, e) => OuterEnd(plan, c, f) && P.InnerEnded(c) && c.src.pc == P.SrcSent(e)
        case Judging(f, e) =>
          && c.outer.pc.Returned? && (!f ==> c.outer.pc.err == P.NoErr)
          && P.InnerEnded(c) && c.src.pc == P.SrcSent(e)
        case Done(v) =>
          && c.outer.pc.Returned? && P.InnerEnded(c) && c.src.pc.SrcSent?
          && (v != EncryptFailed ==>
                c.outer.pc.err == P.NoErr && v == Judge(false, c.src.pc.err, c.count)))
    && (plan.sealed ==> !c.inner.pc.Idle?)
  }

  ghost predicate OuterEnd(plan: P.Plan, c: P.Core, failed: bool) {
    && c.outer.pc == P.Returned(if failed then P.Fault else P.NoErr)
    && (failed ==> c.cancelled && c.p0.rerr.Some? && (plan.sealed ==> c.p1.rerr.Some?))
  }

  ghost predicate Inv(plan: P.Plan, s: State) {
    P.Inv(plan, s.core) && MainInv(plan, s)
  }

  lemma OtherStepInv(plan: P.Plan, s: State, step: P.Action)
    requires plan.Valid() && Inv(plan, s) && P.Enabled(plan, s.core, step)
    ensures Inv(plan, Apply(plan, s, Other(step)))
  {
    P.StepInv(plan, s.core, step);
    P.StepKeeps(plan, s.core, step);
  }

  lemma MainStepInv(plan: P.Plan, s: State, a: Action)
    requires plan.Valid() && Inv(plan, s) && Enabled(plan, s, a) && a.Main?
    ensures Inv(plan, Apply(plan, s, a))
  {
    if s.main.JoiningInner? && !s.main.failed {
      P.OuterSuccess(plan, s.core);
    }
  }

  lemma StepInv(plan: P.Plan, s: State, a: Action)
    requires plan.Valid() && Inv(plan, s) && Enabled(plan, s, a)
    ensures Inv(plan, Apply(plan, s, a))
  {
    match a
    case Other(step) => OtherStepInv(plan, s, step);
    case Main(_) => MainStepInv(plan, s, a);
  }

  lemma {:induction false} RunInv(plan: P.Plan, s: State, acts: seq<Action>)
    requires plan.Valid() && Inv(plan, s) && Runs(plan, s, acts)
    ensures Inv(plan, After(plan, s, acts))
    decreases |acts|
  {
    if acts != [] {
      StepInv(plan, s, acts[0]);
      RunInv(plan, Apply(plan, s, acts[0]), acts[1..]);
    }
  }

  lemma ReachableInv(plan: P.Plan, acts: seq<Action>)
    requires plan.Valid() && Runs(plan, Init(plan), acts)
    ensures Inv(plan, After(plan, Init(plan), acts))
  {
    P.InitInv(plan, if plan.sealed then P.Starting else P.Idle);
    RunInv(plan, Init(plan), acts);
  }

  // ---- What decides the verdict ----

  /** Somewhere in the run, closing the spool file reports an error. */
  predicate CloseFails(plan: P.Plan, s: State, acts: seq<Action>)
    requires Runs(plan, s, acts)
    decreases |acts|
  {
    acts != [] &&
    ((s.main.ClosingSpool? && acts[0] == Main(true)) || CloseFails(plan, Apply(plan, s, acts[0]), acts[1..]))
  }

  /** The main thread remembers what has gone wrong; closeFailed says whether closing the spool did. */
  ghost predicate Remembers(s: State, closeFailed: bool) {
    match s.main
    case Judging(f, e) => f <==> s.core.outer.pc == P.Returned(P.Fault) || closeFailed
    case Done(v) =>
      s.core.src.pc.SrcSent? &&
      v == if s.core.outer.pc == P.Returned(P.Fault) || closeFailed then EncryptFailed
           else if s.core.src.pc.err != P.NoErr then SourceFailed
           else if s.core.count == 0 then EmptySource
           else Upload
    case _ => !closeFailed
  }

  lemma StepRemembers(plan: P.Plan, s: State, a: Action, closeFailed: bool)
    requires plan.Valid() && Inv(plan, s) && Enabled(plan, s, a) && Remembers(s, closeFailed)
    ensures Remembers(Apply(plan, s, a), closeFailed || (s.main.ClosingSpool? && a == Main(true)))
  {
    if a.Other? {
      P.StepKeeps(plan, s.core, a.step);
    }
  }

  lemma {:induction false} RunRemembers(plan: P.Plan, s: State, acts: seq<Action>, closeFailed: bool)
    requires plan.Valid() && Inv(plan, s) && Runs(plan, s, acts) && Remembers(s, closeFailed)
    ensures Remembers(After(plan, s, acts), closeFailed || CloseFails(plan, s, acts))
    decreases |acts|
  {
    if acts != [] {
      StepInv(plan, s, acts[0]);
      StepRemembers(plan, s, acts[0], closeFailed);
      RunRemembers(plan, Apply(plan, s, acts[0]), acts[1..],
                   closeFailed || (s.main.ClosingSpool? && acts[0] == Main(true)));
    }
  }

  // ---- Theorems ----

  /**
   The exact verdict of every run that ends: an encryption or a close of the spool that failed comes
   first, then an error of the source, then an empty source; only without all of these is there an upload.
   */
  lemma VerdictIff(plan: P.Plan, acts: seq<Action>)
    requires plan.Valid() && Runs(plan, Init(plan), acts) && After(plan, Init(plan), acts).main.Done?
    ensures var s := After(plan, Init(plan), acts);
      && s.core.src.pc.SrcSent? && s.core.outer.pc.Returned?
      && (s.main.verdict == EncryptFailed <==>
            s.core.outer.pc.err != P.NoErr || CloseFails(plan, Init(plan), acts))
      && (s.main.verdict == SourceFailed <==>
            s.core.outer.pc.err == P.NoErr && !CloseFails(plan, Init(plan), acts) && s.core.src.pc.err != P.NoErr)
      && (s.main.verdict == Upload <==>
            s.core.outer.pc.err == P.NoErr && !CloseFails(plan, Init(plan), acts) && s.core.src.pc.err == P.NoErr
            && s.core.count > 0)
  {
    ReachableInv(plan, acts);
    P.InitInv(plan, if plan.sealed then P.Starting else P.Idle);
    RunRemembers(plan, Init(plan), acts, false);
  }

  /**
   Safety.  In every interleaving, chunking and failure schedule, reaching the upload phase means that
   the source ended without an error, that the spool holds exactly the codecs' output for every byte
   of the source, that the hash saw exactly the spool, that the size guards held, and that the spool
   file was closed without an error.
   */
  lemma UploadIsComplete(plan: P.Plan, acts: seq<Action>)
    requires plan.Valid() && Runs(plan, Init(plan), acts)
    requires After(plan, Init(plan), acts).main == Done(Upload)
    ensures var s := After(plan, Init(plan), acts);
      && plan.tail == P.Ends(P.NoErr) && s.core.src.pc == P.SrcSent(P.NoErr)
      && plan.Through(plan.Total()) == Some(s.core.spool.out)
      && s.core.spool.hashed == s.core.spool.out
      && s.core.count == |plan.Total()| > 0
      && (plan.limit > 0 ==> |s.core.spool.out| <= plan.limit)
      && !s.spoolOpen && P.InnerEnded(s.core) && !CloseFails(plan, Init(plan), acts)
  {
    ReachableInv(plan, acts);
    VerdictIff(plan, acts);
    P.OuterSuccess(plan, After(plan, Init(plan), acts).core);
  }

  /**
   What the other two verdicts of an encryption that succeeded mean: the source ended with an error that
   the pipe had hidden, or it ended well and had nothing to offer.
   */
  lemma RefusalsAreTrue(plan: P.Plan, acts: seq<Action>)
    requires plan.Valid() && Runs(plan, Init(plan), acts)
    requires After(plan, Init(plan), acts).main.Done?
    ensures var s := After(plan, Init(plan), acts);
      && (s.main.verdict == SourceFailed ==> s.core.src.pc == P.SrcSent(P.EofErr))
      && (s.main.verdict == EmptySource ==>
            s.core.src.pc == P.SrcSent(P.NoErr) && plan.tail == P.Ends(P.NoErr) && plan.Total() == [])
      && (s.main.verdict in {SourceFailed, EmptySource} ==>
            s.core.outer.pc == P.Returned(P.NoErr) && s.core.spool.hashed == s.core.spool.out)
  {
    ReachableInv(plan, acts);
    var s := After(plan, Init(plan), acts);
    if s.main.verdict in {SourceFailed, EmptySource} {
      P.OuterSuccess(plan, s.core);
    }
  }

  /** A source error that the pipe presented as an end of file never reaches the upload phase. */
  lemma EofLikeErrorIsCaught(plan: P.Plan, acts: seq<Action>)
    requires plan.Valid() && Runs(plan, Init(plan), acts)
    requires After(plan, Init(plan), acts).main.Done?
    requires After(plan, Init(plan), acts).core.src.pc == P.SrcSent(P.EofErr)
    ensures After(plan, Init(plan), acts).main.verdict in {EncryptFailed, SourceFailed}
  {
    ReachableInv(plan, acts);
  }

  predicate Finished(s: State) {
    s.main.Done? && P.SourceEnded(s.core) && P.InnerEnded(s.core)
  }

  predicate Certain(s: State, a: Action) {
    match a
    case Other(step) => P.Certain(s.core, step)
    case Main(closeFails) => !closeFails
  }

  lemma CanStep(plan: P.Plan, s: State) returns (a: Action)
    requires plan.Valid() && Inv(plan, s) && !Finished(s) && !P.Waits(plan, s.core)
    ensures Enabled(plan, s, a) && Certain(s, a)
  {
    if Enabled(plan, s, Main(false)) {
      a := Main(false);
    } else {
      var step: P.Action;
      if s.main.Encoding? {
        step := P.OuterRuns(plan, s.core);
      } else if s.main.failed {
        step := P.ClosedRuns(plan, s.core);
      } else {
        P.OuterSuccess(plan, s.core);
        step := if s.main.JoiningInner? then P.InnerSend else P.Src(P.Send);
      }
      a := Other(step);
    }
  }

  /**
   Progress.  Whatever has happened so far, unless main, source and inner encryptor have all finished,
   some process has a step that no environment can withhold.  The one exception: nothing has failed, and
   every reader waits for a source that has nothing more to say.
   */
  lemma NeverStuck(plan: P.Plan, acts: seq<Action>) returns (a: Action)
    requires plan.Valid() && Runs(plan, Init(plan), acts)
    requires var s := After(plan, Init(plan), acts); !Finished(s) && !P.Waits(plan, s.core)
    ensures var s := After(plan, Init(plan), acts); Enabled(plan, s, a) && Certain(s, a)
  {
    ReachableInv(plan, acts);
    a := CanStep(plan, After(plan, Init(plan), acts));
  }

  /** The exception is exact: there, and only there, every process waits; and no stage has failed there. */
  lemma BlockedIffWaits(plan: P.Plan, acts: seq<Action>)
    requires plan.Valid() && Runs(plan, Init(plan), acts) && !Finished(After(plan, Init(plan), acts))
    ensures var s := After(plan, Init(plan), acts);
      && ((forall a :: Enabled(plan, s, a) ==> !Certain(s, a)) <==> P.Waits(plan, s.core))
      && (P.Waits(plan, s.core) ==> s.main == Encoding && !P.Failed(s.core) && plan.tail.Stalls?)
  {
    ReachableInv(plan, acts);
    var s := After(plan, Init(plan), acts);
    if P.Waits(plan, s.core) {
      forall a | Enabled(plan, s, a) ensures !Certain(s, a) {
        if a.Other? {
          P.WaitsIsBlocked(plan, s.core, a.step);
        }
      }
    } else {
      var a := CanStep(plan, s);
    }
  }

  /** A failed encryption releases even a source that would wait forever. */
  lemma FailureUnblocksSource(plan: P.Plan, acts: seq<Action>)
    requires plan.Valid() && Runs(plan, Init(plan), acts)
    requires var m := After(plan, Init(plan), acts).main;
      !m.Encoding? && !m.Cancelling?
    ensures !P.Stalled(plan, After(plan, Init(plan), acts).core)
  {
    ReachableInv(plan, acts);
    var s := After(plan, Init(plan), acts);
    if s.core.outer.pc == P.Returned(P.NoErr) {
      P.OuterSuccess(plan, s.core);
    }
  }

  function Rank(m: MainPc): nat {
    match m
    case Encoding => 8
    case Cancelling => 7
    case ClosingSource => 6
    case ClosingInner => 5
    case JoiningInner(_) => 4
    case JoiningSource(_) => 3
    case ClosingSpool(_, _) => 2
    case Judging(_, _) => 1
    case Done(_) => 0
  }

  lemma StepDecreases(plan: P.Plan, s: State, a: Action)
    requires plan.Valid() && Inv(plan, s) && Enabled(plan, s, a)
    ensures var t := Apply(plan, s, a);
      && t.core.src.next <= |plan.script|
      && (P.Below(P.MeasureOf(plan, t.core), P.MeasureOf(plan, s.core)) ||
          (P.MeasureOf(plan, t.core) == P.MeasureOf(plan, s.core) && Rank(t.main) < Rank(s.main)))
  {
    if a.Other? {
      P.StepDecreases(plan, s.core, a.step);
    }
  }

  /** The schedule is followed from state s at time i up to time n. */
  predicate Follows(plan: P.Plan, s: State, sched: nat -> Action, i: nat, n: nat)
    requires i <= n
    decreases n - i
  {
    i == n || (Enabled(plan, s, sched(i)) && Follows(plan, Apply(plan, s, sched(i)), sched, i + 1, n))
  }

  lemma {:induction false} EndsFrom(plan: P.Plan, s: State, sched: nat -> Action, i: nat) returns (n: nat)
    requires plan.Valid() && Inv(plan, s)
    ensures i <= n && !Follows(plan, s, sched, i, n)
    decreases
      P.MeasureOf(plan, s.core).cancel, P.MeasureOf(plan, s.core).chunks,
      P.MeasureOf(plan, s.core).srcPhase, P.MeasureOf(plan, s.core).srcLeft,
      P.MeasureOf(plan, s.core).innerPhase, P.MeasureOf(plan, s.core).innerLeft,
      P.MeasureOf(plan, s.core).outerPhase, P.MeasureOf(plan, s.core).outerLeft, Rank(s.main)
  {
    if Enabled(plan, s, sched(i)) {
      StepInv(plan, s, sched(i));
      StepDecreases(plan, s, sched(i));
      n := EndsFrom(plan, Apply(plan, s, sched(i)), sched, i + 1);
    } else {
      n := i + 1;
    }
  }

  /** Termination: no schedule, fair or not, can be followed forever. */
  lemma NoInfiniteRun(plan: P.Plan, sched: nat -> Action) returns (n: nat)
    requires plan.Valid()
    ensures !Follows(plan, Init(plan), sched, 0, n)
  {
    P.InitInv(plan, if plan.sealed then P.Starting else P.Idle);
    n := EndsFrom(plan, Init(plan), sched, 0);
  }

  predicate CertainRun(plan: P.Plan, s: State, acts: seq<Action>)
    requires Runs(plan, s, acts)
    decreases |acts|
  {
    acts == [] || (Certain(s, acts[0]) && CertainRun(plan, Apply(plan, s, acts[0]), acts[1..]))
  }

  /**
   From every state a run can reach, steps that inject no failure lead to its end, or to a wait for a
   stalled source.  They lead to the end if the source ends by itself, and also, whatever the source
   does, once some stage has failed.
   */
  lemma {:induction false} CanFinish(plan: P.Plan, s: State) returns (acts: seq<Action>)
    requires plan.Valid() && Inv(plan, s)
    ensures Runs(plan, s, acts) && CertainRun(plan, s, acts)
    ensures Finished(After(plan, s, acts)) || P.Waits(plan, After(plan, s, acts).core)
    ensures plan.tail.Ends? || P.Failed(s.core) ==> Finished(After(plan, s, acts))
    decreases
      P.MeasureOf(plan, s.core).cancel, P.MeasureOf(plan, s.core).chunks,
      P.MeasureOf(plan, s.core).srcPhase, P.MeasureOf(plan, s.core).srcLeft,
      P.MeasureOf(plan, s.core).innerPhase, P.MeasureOf(plan, s.core).innerLeft,
      P.MeasureOf(plan, s.core).outerPhase, P.MeasureOf(plan, s.core).outerLeft, Rank(s.main)
  {
    if Finished(s) || P.Waits(plan, s.core) {
      acts := [];
    } else {
      var a := CanStep(plan, s);
      StepInv(plan, s, a);
      StepDecreases(plan, s, a);
      if a.Other? && P.Failed(s.core) {
        P.FailedStays(plan, s.core, a.step);
      }
      var rest := CanFinish(plan, Apply(plan, s, a));
      acts := [a] + rest;
      assert acts[1..] == rest;
    }
  }

  // ---- Refinement of the sequential specification ----

  /** The one-line specification: what a sequential implementation decides, without failures. */
  ghost function Expected(plan: P.Plan): Verdict {
    if P.Doomed(plan) then EncryptFailed
    else if plan.tail == P.Ends(P.EofErr) then SourceFailed
    else if plan.Total() == [] then EmptySource
    else Upload
  }

  ghost predicate Benign(plan: P.Plan, s: State, a: Action) {
    match a
    case Other(step) => P.Benign(plan, s.core, step)
    case Main(closeFails) => !closeFails
  }

  ghost predicate BenignRun(plan: P.Plan, s: State, acts: seq<Action>)
    requires Runs(plan, s, acts)
    decreases |acts|
  {
    acts == [] || (Benign(plan, s, acts[0]) && BenignRun(plan, Apply(plan, s, acts[0]), acts[1..]))
  }

  ghost predicate CleanMain(plan: P.Plan, s: State) {
    && (s.core.cancelled || s.core.p0.rerr.Some? ==> s.core.outer.pc == P.Returned(P.Fault))
    && (match s.main
        case Judging(f, _) => f ==> s.core.outer.pc == P.Returned(P.Fault)
        case Done(v) => v == EncryptFailed ==> s.core.outer.pc == P.Returned(P.Fault)
        case _ => true)
  }

  lemma {:induction false} BenignRunClean(plan: P.Plan, s: State, acts: seq<Action>)
    requires plan.Valid() && Inv(plan, s) && P.Clean(plan, s.core) && CleanMain(plan, s)
    requires Runs(plan, s, acts) && BenignRun(plan, s, acts)
    ensures P.Clean(plan, After(plan, s, acts).core) && CleanMain(plan, After(plan, s, acts))
    decreases |acts|
  {
    if acts != [] {
      var a := acts[0];
      StepInv(plan, s, a);
      if a.Other? {
        P.StepClean(plan, s.core, a.step);
        P.StepKeeps(plan, s.core, a.step);
      }
      BenignRunClean(plan, Apply(plan, s, a), acts[1..]);
    }
  }

  /** Every failure-free interleaving and chunking that ends, ends with the sequential verdict. */
  lemma RefinesSequential(plan: P.Plan, acts: seq<Action>)
    requires plan.Valid() && Runs(plan, Init(plan), acts) && BenignRun(plan, Init(plan), acts)
    requires After(plan, Init(plan), acts).main.Done?
    ensures After(plan, Init(plan), acts).main.verdict == Expected(plan)
  {
    P.InitInv(plan, if plan.sealed then P.Starting else P.Idle);
    BenignRunClean(plan, Init(plan), acts);
    ReachableInv(plan, acts);
    var s := After(plan, Init(plan), acts);
    if s.core.outer.pc == P.Returned(P.NoErr) {
      P.OuterSuccess(plan, s.core);
    }
  }

  lemma {:induction false} CertainIsBenign(plan: P.Plan, s: State, acts: seq<Action>)
    requires Runs(plan, s, acts) && CertainRun(plan, s, acts)
    ensures BenignRun(plan, s, acts)
    decreases |acts|
  {
    if acts != [] {
      CertainIsBenign(plan, Apply(plan, s, acts[0]), acts[1..]);
    }
  }

  /** A source that ends has a complete run without failures, and that run has the sequential verdict. */
  lemma SomeRunEnds(plan: P.Plan) returns (acts: seq<Action>)
    requires plan.Valid() && plan.tail.Ends?
    ensures Runs(plan, Init(plan), acts) && BenignRun(plan, Init(plan), acts)
    ensures After(plan, Init(plan), acts).main == Done(Expected(plan))
  {
    P.InitInv(plan, if plan.sealed then P.Starting else P.Idle);
    acts := CanFinish(plan, Init(plan));
    CertainIsBenign(plan, Init(plan), acts);
    RefinesSequential(plan, acts);
  }

  /**
   Why the second check exists: a source that fails with an error the pipe takes for an end of file is
   encrypted without complaint, and only the error from the channel stops the upload.
   */
  lemma EofLikeErrorPassesThePipe(plan: P.Plan, acts: seq<Action>)
    requires plan.Valid() && Runs(plan, Init(plan), acts) && BenignRun(plan, Init(plan), acts)
    requires plan.tail == P.Ends(P.EofErr) && !P.Doomed(plan)
    requires After(plan, Init(plan), acts).main.Done?
    ensures var s := After(plan, Init(plan), acts);
      s.core.outer.pc == P.Returned(P.NoErr) && s.main.verdict == SourceFailed
  {
    RefinesSequential(plan, acts);
    ReachableInv(plan, acts);
    P.InitInv(plan, if plan.sealed then P.Starting else P.Idle);
    BenignRunClean(plan, Init(plan), acts);
  }
}

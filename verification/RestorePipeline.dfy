/**
 The streaming part of streamDecrypt and DecryptSealed: the downloader goroutine, the optional unseal
 goroutine, and the main thread with its two cleanup paths.  DecryptSealed returns early without
 joining the unseal goroutine; the downloader is always joined.
 */
module RestorePipeline {
  import opened Base
  import opened Codecs
  import opened Text
  import P = Pipeline

  /**
   What one call is given: the pipeline parameters (`script` is the object as it is downloaded), whether
   a seal passphrase is present, and the recorded hash ("" when none) with the hash function.
   */
  datatype Job = Job(plan: P.Plan, hasPassphrase: bool, recorded: string, hexSha: Bytes -> string) {

    ghost predicate Valid() {
      plan.Valid() && plan.limit == 0
    }

    predicate HashOk(downloaded: Bytes) {
      recorded == "" || EqualFold(hexSha(downloaded), recorded)
    }
  }

  datatype MainPc =
    | Opening
    | Decoding
    | ClosingInner
    | ClosingDownload
    | Cancelling
    | JoiningInner
    | JoiningDownload(failed: bool)
    | Done(ok: bool)

  datatype State = State(core: P.Core, main: MainPc)

  datatype Action = Other(step: P.Action) | Main(fails: bool)

  function Init(job: Job): State {
    State(P.InitCore(job.plan, P.Idle), Opening)
  }

  /** The outer codec runs on the main thread, inside Decrypt or DecryptSealed. */
  predicate Enabled(job: Job, s: State, a: Action) {
    match a
    case Other(step) =>
      P.Enabled(job.plan, s.core, step) && (step.Local? && step.who.Outer? ==> s.main.Decoding?)
    case Main(_) =>
      match s.main
      case Decoding => s.core.outer.pc.Returned?
      case JoiningInner => s.core.inner.pc.Sent?
      case JoiningDownload(_) => s.core.src.pc.SrcSent?
      case Done(_) => false
      case _ => true
  }

  function Apply(job: Job, s: State, a: Action): State
    requires Enabled(job, s, a)
  {
    var c := s.core;
    match a
    case Other(step) => s.(core := P.Apply(job.plan, c, step))
    case Main(fails) =>
      match s.main
      case Opening =>
        if !job.plan.sealed then s.(main := Decoding)
        else if !job.hasPassphrase || fails then s.(main := ClosingDownload)
        else State(c.(inner := c.inner.(pc := P.Starting)), Decoding)
      case Decoding =>
        s.(main := if c.outer.pc.err != P.NoErr then (if job.plan.sealed then ClosingInner else ClosingDownload)
                   else if job.plan.sealed then JoiningInner else JoiningDownload(false))
      case ClosingInner => State(c.(p1 := c.p1.CloseRead(P.NoErr)), ClosingDownload)
      case ClosingDownload => State(c.(p0 := c.p0.CloseRead(P.Fault)), Cancelling)
      case Cancelling => State(c.(cancelled := true), JoiningDownload(true))
      case JoiningInner => s.(main := if c.inner.pc.err != P.NoErr then ClosingDownload else JoiningDownload(false))
      case JoiningDownload(failed) =>
        s.(main := Done(!failed && c.src.pc.err == P.NoErr && job.HashOk(c.src.acked)))
  }

  predicate Runs(job: Job, s: State, acts: seq<Action>)
    decreases |acts|
  {
    acts == [] || (Enabled(job, s, acts[0]) && Runs(job, Apply(job, s, acts[0]), acts[1..]))
  }

  function After(job: Job, s: State, acts: seq<Action>): State
    requires Runs(job, s, acts)
    decreases |acts|
  {
    if acts == [] then s else After(job, Apply(job, s, acts[0]), acts[1..])
  }

  // ---- The invariant ----

  ghost predicate Failing(job: Job, s: State) {
    var c := s.core;
    if c.inner.pc.Idle? then true else c.outer.pc == P.Returned(P.Fault) && c.p1.rerr.Some?
  }

  ghost predicate MainInv(job: Job, s: State) {
    var c := s.core;
    && (match s.main
        case Opening => c.inner.pc.Idle? && c.outer.pc.Starting?
        case Decoding => true
        case ClosingInner => c.outer.pc == P.Returned(P.Fault) && job.plan.sealed
        case ClosingDownload => Failing(job, s)
        case Cancelling => Failing(job, s) && c.p0.rerr.Some?
        case JoiningInner => c.outer.pc == P.Returned(P.NoErr) && job.plan.sealed
        case JoiningDownload(failed) =>
          if failed then Failing(job, s) && c.p0.rerr.Some? && c.cancelled
          else c.outer.pc == P.Returned(P.NoErr) && P.InnerEnded(c)
        case Done(ok) =>
          && c.src.pc.SrcSent?
          && (P.InnerEnded(c) || (Failing(job, s) && c.p0.rerr.Some? && c.cancelled))
          && (ok ==> c.outer.pc == P.Returned(P.NoErr) && P.InnerEnded(c) && c.src.pc.err == P.NoErr &&
                     job.HashOk(c.src.acked)))
    && (job.plan.sealed && !c.outer.pc.Starting? ==> !c.inner.pc.Idle?)
    && (job.plan.sealed && s.main.Decoding? ==> !c.inner.pc.Idle?)
    && (!c.inner.pc.Idle? ==> job.hasPassphrase)
  }

  ghost predicate Inv(job: Job, s: State) {
    P.Inv(job.plan, s.core) && MainInv(job, s)
  }

  lemma OtherStepInv(job: Job, s: State, step: P.Action)
    requires job.Valid() && Inv(job, s) && Enabled(job, s, Other(step))
    ensures Inv(job, Apply(job, s, Other(step)))
  {
    P.StepInv(job.plan, s.core, step);
    P.StepKeeps(job.plan, s.core, step);
  }

  lemma MainStepInv(job: Job, s: State, fails: bool)
    requires job.Valid() && Inv(job, s) && Enabled(job, s, Main(fails))
    ensures Inv(job, Apply(job, s, Main(fails)))
  {
    if s.main.JoiningInner? {
      P.OuterSuccess(job.plan, s.core);
    }
  }

  lemma StepInv(job: Job, s: State, a: Action)
    requires job.Valid() && Inv(job, s) && Enabled(job, s, a)
    ensures Inv(job, Apply(job, s, a))
  {
    match a
    case Other(step) => OtherStepInv(job, s, step);
    case Main(fails) => MainStepInv(job, s, fails);
  }

  lemma {:induction false} RunInv(job: Job, s: State, acts: seq<Action>)
    requires job.Valid() && Inv(job, s) && Runs(job, s, acts)
    ensures Inv(job, After(job, s, acts))
    decreases |acts|
  {
    if acts != [] {
      StepInv(job, s, acts[0]);
      RunInv(job, Apply(job, s, acts[0]), acts[1..]);
    }
  }

  lemma ReachableInv(job: Job, acts: seq<Action>)
    requires job.Valid() && Runs(job, Init(job), acts)
    ensures Inv(job, After(job, Init(job), acts))
  {
    P.InitInv(job.plan, P.Idle);
    RunInv(job, Init(job), acts);
  }

  // ---- What decides the result ----

  /** On the failure path the decryption has not succeeded. */
  ghost predicate Remembers(job: Job, s: State) {
    match s.main
    case ClosingInner => s.core.outer.pc != P.Returned(P.NoErr)
    case ClosingDownload => s.core.outer.pc != P.Returned(P.NoErr)
    case Cancelling => s.core.outer.pc != P.Returned(P.NoErr)
    case JoiningDownload(failed) => failed ==> s.core.outer.pc != P.Returned(P.NoErr)
    case Done(ok) =>
      s.core.src.pc.SrcSent? &&
      (ok <==> s.core.outer.pc == P.Returned(P.NoErr) && s.core.src.pc.err == P.NoErr &&
               (job.recorded == "" || EqualFold(job.hexSha(s.core.src.acked), job.recorded)))
    case _ => true
  }

  lemma StepRemembers(job: Job, s: State, a: Action)
    requires job.Valid() && Inv(job, s) && Enabled(job, s, a) && Remembers(job, s)
    ensures Remembers(job, Apply(job, s, a))
  {
    if a.Other? {
      P.StepKeeps(job.plan, s.core, a.step);
    } else if s.main.JoiningInner? {
      P.OuterSuccess(job.plan, s.core);
    }
  }

  lemma {:induction false} RunRemembers(job: Job, s: State, acts: seq<Action>)
    requires job.Valid() && Inv(job, s) && Runs(job, s, acts) && Remembers(job, s)
    ensures Remembers(job, After(job, s, acts))
    decreases |acts|
  {
    if acts != [] {
      StepInv(job, s, acts[0]);
      StepRemembers(job, s, acts[0]);
      RunRemembers(job, Apply(job, s, acts[0]), acts[1..]);
    }
  }

  // ---- Theorems ----

  /**
   The exact result of every call that ends: nil iff the decryption succeeded, the download reported no
   error, and a recorded hash, if there is one, is the hash of the bytes that passed the tee.
   */
  lemma ResultIff(job: Job, acts: seq<Action>)
    requires job.Valid() && Runs(job, Init(job), acts) && After(job, Init(job), acts).main.Done?
    ensures var s := After(job, Init(job), acts);
      s.main.ok <==>
        && s.core.outer.pc == P.Returned(P.NoErr) && s.core.src.pc == P.SrcSent(P.NoErr)
        && (job.recorded == "" || EqualFold(job.hexSha(s.core.src.acked), job.recorded))
  {
    P.InitInv(job.plan, P.Idle);
    RunRemembers(job, Init(job), acts);
  }

  /** Opening the identity of a sealed object may fail, and a missing passphrase always does. */
  lemma OpeningCanFail(job: Job, s: State, fails: bool)
    requires s.main.Opening? && job.plan.sealed
    ensures Enabled(job, s, Main(fails))
    ensures Apply(job, s, Main(fails)).main == if fails || !job.hasPassphrase then ClosingDownload else Decoding
  {
  }

  /**
   Safety.  In every interleaving, chunking and failure schedule, nil means that the destination got
   the decryption of the entire downloaded object, and that a recorded hash is the hash of exactly the
   downloaded bytes.
   */
  lemma SuccessIsComplete(job: Job, acts: seq<Action>)
    requires job.Valid() && Runs(job, Init(job), acts)
    requires After(job, Init(job), acts).main == Done(true)
    ensures var c := After(job, Init(job), acts).core;
      && job.plan.Through(job.plan.Total()) == Some(c.spool.out)
      && job.plan.tail == P.Ends(P.NoErr) && c.src.acked == job.plan.Total()
      && (job.recorded == "" || EqualFold(job.hexSha(job.plan.Total()), job.recorded))
      && (job.plan.sealed ==> job.hasPassphrase)
      && P.InnerEnded(c)
  {
    ReachableInv(job, acts);
    P.OuterSuccess(job.plan, After(job, Init(job), acts).core);
  }

  predicate Finished(s: State) {
    s.main.Done? && P.SourceEnded(s.core) && P.InnerEnded(s.core)
  }

  predicate Certain(s: State, a: Action) {
    match a
    case Other(step) => P.Certain(s.core, step)
    case Main(fails) => !fails
  }

  /** The decryption waits for a download that waits for the network, and nothing has failed. */
  predicate Waits(job: Job, s: State) {
    s.main.Decoding? && P.Waits(job.plan, s.core)
  }

  /** Some stage has failed, or the call is bound for its failure path. */
  predicate Failed(job: Job, s: State) {
    || P.Failed(s.core) || s.main.ClosingDownload?
    || (s.main.Opening? && job.plan.sealed && !job.hasPassphrase)
  }

  lemma CanStep(job: Job, s: State) returns (a: Action)
    requires job.Valid() && Inv(job, s) && !Finished(s) && !Waits(job, s)
    ensures Enabled(job, s, a) && Certain(s, a)
  {
    if Enabled(job, s, Main(false)) {
      a := Main(false);
    } else {
      var step: P.Action;
      if s.main.Decoding? {
        step := P.OuterRuns(job.plan, s.core);
      } else if s.main.JoiningInner? {
        P.OuterSuccess(job.plan, s.core);
        step := P.InnerSend;
      } else if s.main.JoiningDownload? && !s.main.failed {
        P.OuterSuccess(job.plan, s.core);
        step := P.Src(P.Send);
      } else {
        step := P.ClosedRuns(job.plan, s.core);
      }
      a := Other(step);
    }
  }

  /**
   Progress, on every success and failure path: until main has returned and both goroutines have
   ended, some process can step.  The one exception: nothing has failed, and every reader waits for a
   download that waits for the network.
   */
  lemma NeverStuck(job: Job, acts: seq<Action>) returns (a: Action)
    requires job.Valid() && Runs(job, Init(job), acts)
    requires var s := After(job, Init(job), acts); !Finished(s) && !Waits(job, s)
    ensures var s := After(job, Init(job), acts); Enabled(job, s, a) && Certain(s, a)
  {
    ReachableInv(job, acts);
    a := CanStep(job, After(job, Init(job), acts));
  }

  /** The exception is exact: there, and only there, every process waits; and nothing has failed there. */
  lemma BlockedIffWaits(job: Job, acts: seq<Action>)
    requires job.Valid() && Runs(job, Init(job), acts) && !Finished(After(job, Init(job), acts))
    ensures var s := After(job, Init(job), acts);
      && ((forall a :: Enabled(job, s, a) ==> !Certain(s, a)) <==> Waits(job, s))
      && (Waits(job, s) ==> !Failed(job, s) && job.plan.tail.Stalls?)
  {
    ReachableInv(job, acts);
    var s := After(job, Init(job), acts);
    if Waits(job, s) {
      forall a | Enabled(job, s, a) ensures !Certain(s, a) {
        if a.Other? {
          P.WaitsIsBlocked(job.plan, s.core, a.step);
        }
      }
    } else {
      var a := CanStep(job, s);
    }
  }

  /**
   `fail` releases the downloader: once main is joining it, or has returned, it is not waiting for the
   network, not even if it would have waited forever; and main returns only after it has ended.
   */
  lemma FailureReleasesDownload(job: Job, acts: seq<Action>)
    requires job.Valid() && Runs(job, Init(job), acts)
    requires var m := After(job, Init(job), acts).main; m.JoiningInner? || m.JoiningDownload? || m.Done?
    ensures var s := After(job, Init(job), acts);
      !P.Stalled(job.plan, s.core) && (s.main.Done? ==> P.SourceEnded(s.core))
  {
    ReachableInv(job, acts);
    var s := After(job, Init(job), acts);
    if s.main.JoiningInner? || (s.main.JoiningDownload? && !s.main.failed) {
      P.OuterSuccess(job.plan, s.core);
    }
  }

  function Rank(m: MainPc): nat {
    match m
    case Opening => 7
    case Decoding => 6
    case JoiningInner => 5
    case ClosingInner => 5
    case ClosingDownload => 4
    case Cancelling => 3
    case JoiningDownload(_) => 2
    case Done(_) => 0
  }

  lemma StepDecreases(job: Job, s: State, a: Action)
    requires job.Valid() && Inv(job, s) && Enabled(job, s, a)
    ensures var t := Apply(job, s, a);
      && t.core.src.next <= |job.plan.script|
      && (P.Below(P.MeasureOf(job.plan, t.core), P.MeasureOf(job.plan, s.core)) ||
          (P.MeasureOf(job.plan, t.core) == P.MeasureOf(job.plan, s.core) && Rank(t.main) < Rank(s.main)))
  {
    if a.Other? {
      P.StepDecreases(job.plan, s.core, a.step);
    }
  }

  /** The schedule is followed from state s at time i up to time n. */
  predicate Follows(job: Job, s: State, sched: nat -> Action, i: nat, n: nat)
    requires i <= n
    decreases n - i
  {
    i == n || (Enabled(job, s, sched(i)) && Follows(job, Apply(job, s, sched(i)), sched, i + 1, n))
  }

  lemma {:induction false} EndsFrom(job: Job, s: State, sched: nat -> Action, i: nat) returns (n: nat)
    requires job.Valid() && Inv(job, s)
    ensures i <= n && !Follows(job, s, sched, i, n)
    decreases
      P.MeasureOf(job.plan, s.core).cancel, P.MeasureOf(job.plan, s.core).chunks,
      P.MeasureOf(job.plan, s.core).srcPhase, P.MeasureOf(job.plan, s.core).srcLeft,
      P.MeasureOf(job.plan, s.core).innerPhase, P.MeasureOf(job.plan, s.core).innerLeft,
      P.MeasureOf(job.plan, s.core).outerPhase, P.MeasureOf(job.plan, s.core).outerLeft, Rank(s.main)
  {
    if Enabled(job, s, sched(i)) {
      StepInv(job, s, sched(i));
      StepDecreases(job, s, sched(i));
      n := EndsFrom(job, Apply(job, s, sched(i)), sched, i + 1);
    } else {
      n := i + 1;
    }
  }

  /** Termination: no schedule, fair or not, can be followed forever. */
  lemma NoInfiniteRun(job: Job, sched: nat -> Action) returns (n: nat)
    requires job.Valid()
    ensures !Follows(job, Init(job), sched, 0, n)
  {
    P.InitInv(job.plan, P.Idle);
    n := EndsFrom(job, Init(job), sched, 0);
  }

  predicate CertainRun(job: Job, s: State, acts: seq<Action>)
    requires Runs(job, s, acts)
    decreases |acts|
  {
    acts == [] || (Certain(s, acts[0]) && CertainRun(job, Apply(job, s, acts[0]), acts[1..]))
  }

  /**
   From every state a call can reach, steps that inject no failure lead all three processes to their
   ends, or to a wait for the network.  They lead to the ends if the download ends by itself, and also,
   whatever the download does, once some stage has failed or the call is bound to fail.
   */
  lemma {:induction false} CanFinish(job: Job, s: State) returns (acts: seq<Action>)
    requires job.Valid() && Inv(job, s)
    ensures Runs(job, s, acts) && CertainRun(job, s, acts)
    ensures Finished(After(job, s, acts)) || Waits(job, After(job, s, acts))
    ensures job.plan.tail.Ends? || Failed(job, s) ==> Finished(After(job, s, acts))
    decreases
      P.MeasureOf(job.plan, s.core).cancel, P.MeasureOf(job.plan, s.core).chunks,
      P.MeasureOf(job.plan, s.core).srcPhase, P.MeasureOf(job.plan, s.core).srcLeft,
      P.MeasureOf(job.plan, s.core).innerPhase, P.MeasureOf(job.plan, s.core).innerLeft,
      P.MeasureOf(job.plan, s.core).outerPhase, P.MeasureOf(job.plan, s.core).outerLeft, Rank(s.main)
  {
    if Finished(s) || Waits(job, s) {
      acts := [];
    } else {
      var a := CanStep(job, s);
      StepInv(job, s, a);
      StepDecreases(job, s, a);
      if a.Other? && P.Failed(s.core) {
        P.FailedStays(job.plan, s.core, a.step);
      }
      var rest := CanFinish(job, Apply(job, s, a));
      acts := [a] + rest;
      assert acts[1..] == rest;
    }
  }

  // ---- Refinement of the sequential specification ----

  /** What a sequential download, decrypt and compare accepts. */
  ghost predicate Accepts(job: Job) {
    && (job.plan.sealed ==> job.hasPassphrase)
    && job.plan.tail == P.Ends(P.NoErr)
    && job.plan.Through(job.plan.Total()).Some?
    && (job.recorded == "" || EqualFold(job.hexSha(job.plan.Total()), job.recorded))
  }

  ghost predicate Benign(job: Job, s: State, a: Action) {
    match a
    case Other(step) => P.Benign(job.plan, s.core, step)
    case Main(fails) => !fails
  }

  ghost predicate BenignRun(job: Job, s: State, acts: seq<Action>)
    requires Runs(job, s, acts)
    decreases |acts|
  {
    acts == [] || (Benign(job, s, acts[0]) && BenignRun(job, Apply(job, s, acts[0]), acts[1..]))
  }

  ghost predicate CleanMain(job: Job, s: State) {
    P.Doomed(job.plan) || (
      match s.main
      case ClosingInner => false
      case ClosingDownload => false
      case Cancelling => false
      case JoiningDownload(failed) => !failed
      case Done(ok) =>
        && s.core.outer.pc == P.Returned(P.NoErr)
        && (ok || job.plan.tail != P.Ends(P.NoErr) || !job.HashOk(job.plan.Total()))
      case _ => true)
  }

  lemma StepCleanMain(job: Job, s: State, a: Action)
    requires job.Valid() && (job.plan.sealed ==> job.hasPassphrase)
    requires Inv(job, s) && P.Clean(job.plan, s.core) && CleanMain(job, s)
    requires Enabled(job, s, a) && Benign(job, s, a)
    ensures P.Clean(job.plan, Apply(job, s, a).core) && CleanMain(job, Apply(job, s, a))
  {
    if a.Other? {
      P.StepClean(job.plan, s.core, a.step);
      P.StepKeeps(job.plan, s.core, a.step);
    } else if s.main.JoiningInner? || (s.main.JoiningDownload? && !s.main.failed) {
      P.OuterSuccess(job.plan, s.core);
    }
  }

  lemma {:induction false} BenignRunClean(job: Job, s: State, acts: seq<Action>)
    requires job.Valid() && (job.plan.sealed ==> job.hasPassphrase)
    requires Inv(job, s) && P.Clean(job.plan, s.core) && CleanMain(job, s)
    requires Runs(job, s, acts) && BenignRun(job, s, acts)
    ensures P.Clean(job.plan, After(job, s, acts).core) && CleanMain(job, After(job, s, acts))
    decreases |acts|
  {
    if acts != [] {
      StepInv(job, s, acts[0]);
      StepCleanMain(job, s, acts[0]);
      BenignRunClean(job, Apply(job, s, acts[0]), acts[1..]);
    }
  }

  /** Every failure-free interleaving and chunking that returns, returns what the specification says. */
  lemma RefinesSequential(job: Job, acts: seq<Action>)
    requires job.Valid() && Runs(job, Init(job), acts) && BenignRun(job, Init(job), acts)
    requires After(job, Init(job), acts).main.Done?
    ensures After(job, Init(job), acts).main.ok <==> Accepts(job)
  {
    P.InitInv(job.plan, P.Idle);
    ReachableInv(job, acts);
    if After(job, Init(job), acts).main.ok {
      SuccessIsComplete(job, acts);
    } else if job.plan.sealed ==> job.hasPassphrase {
      BenignRunClean(job, Init(job), acts);
    }
  }

  lemma {:induction false} CertainIsBenign(job: Job, s: State, acts: seq<Action>)
    requires Runs(job, s, acts) && CertainRun(job, s, acts)
    ensures BenignRun(job, s, acts)
    decreases |acts|
  {
    if acts != [] {
      CertainIsBenign(job, Apply(job, s, acts[0]), acts[1..]);
    }
  }

  /** A download that ends has a complete run without failures, with the sequential result. */
  lemma SomeRunEnds(job: Job) returns (acts: seq<Action>)
    requires job.Valid() && job.plan.tail.Ends?
    ensures Runs(job, Init(job), acts) && BenignRun(job, Init(job), acts)
    ensures After(job, Init(job), acts).main == Done(Accepts(job))
  {
    P.InitInv(job.plan, P.Idle);
    acts := CanFinish(job, Init(job));
    CertainIsBenign(job, Init(job), acts);
    RefinesSequential(job, acts);
  }

  /**
   Why the destination must be a temporary file: when only the recorded hash is wrong, the whole
   plaintext has already been written by the time the call fails.
   */
  lemma MismatchIsFoundAfterWriting(job: Job, acts: seq<Action>)
    requires job.Valid() && Runs(job, Init(job), acts) && BenignRun(job, Init(job), acts)
    requires After(job, Init(job), acts).main.Done?
    requires (job.plan.sealed ==> job.hasPassphrase) && job.plan.tail == P.Ends(P.NoErr)
    requires job.plan.Through(job.plan.Total()).Some?
    requires job.recorded != "" && !EqualFold(job.hexSha(job.plan.Total()), job.recorded)
    ensures var s := After(job, Init(job), acts);
      !s.main.ok && Some(s.core.spool.out) == job.plan.Through(job.plan.Total())
  {
    P.InitInv(job.plan, P.Idle);
    ReachableInv(job, acts);
    RefinesSequential(job, acts);
    BenignRunClean(job, Init(job), acts);
    P.OuterSuccess(job.plan, After(job, Init(job), acts).core);
  }
}

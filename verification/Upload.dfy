/**
 The upload phase of RunBackup: one goroutine per remote, a wait group, a mutex around the failure
 flag, and one result slot per goroutine; then the fold into a receipt and the fate of the spool file.
 */
module Upload {
  import opened Base

  datatype Status = Success | Failure | Skipped

  datatype RemoteResult = RemoteResult(remote: string, key: string, version: string, status: Status)

  /** An object at rest: a remote maps each key to the latest one. */
  datatype Object = Object(bytes: Bytes, metadata: map<string, string>, version: string)

  type Store = map<(string, string), Object>

  /** What one upload phase works on. */
  datatype Job = Job(
    names: seq<string>, key: string, clients: set<string>, cipher: Bytes, metadata: map<string, string>)
  {
    ghost predicate Distinct() {
      forall i, j :: 0 <= i < j < |names| ==> names[i] != names[j]
    }
  }

  /** A goroutine: not yet started, deciding, waiting for or holding the mutex, storing, leaving, gone. */
  datatype Pc =
    | Unspawned
    | Looking
    | Uploading
    | Failed
    | Holding(flagged: bool)
    | Storing(result: RemoteResult)
    | Leaving
    | Gone

  datatype MainPc = Spawning | Folding | Returned

  datatype State = State(
    main: MainPc, spawned: nat, wg: int, pcs: seq<Pc>, mutex: Option<nat>, hasFailure: bool,
    results: seq<Option<RemoteResult>>, spool: Option<Bytes>, store: Store)

  datatype Action =
    | Spawn
    | Look(i: nat)
    | PutOk(i: nat, version: string)
    | PutFails(i: nat, landed: Option<string>)
    | Lock(i: nat)
    | Flag(i: nat)
    | Unlock(i: nat)
    | Keep(i: nat)
    | Leave(i: nat)
    | Wait
    | Return

  function Init(job: Job, store: Store): State {
    State(Spawning, 0, 0, seq(|job.names|, _ => Unspawned), None, false, seq(|job.names|, _ => None),
          Some(job.cipher), store)
  }

  function FailureOf(job: Job, i: nat): RemoteResult
    requires i < |job.names|
  {
    RemoteResult(job.names[i], job.key, "", Failure)
  }

  predicate Shaped(job: Job, s: State) {
    |s.pcs| == |s.results| == |job.names| && s.spawned <= |job.names|
  }

  predicate At(s: State, i: nat) {
    i < |s.pcs|
  }

  predicate Enabled(job: Job, s: State, a: Action) {
    Shaped(job, s) &&
    match a
    case Spawn => s.main.Spawning? && s.spawned < |job.names|
    case Look(i) => At(s, i) && s.pcs[i].Looking?
    case PutOk(i, _) => At(s, i) && s.pcs[i].Uploading? && s.spool.Some?
    case PutFails(i, landed) => At(s, i) && s.pcs[i].Uploading? && (landed.Some? ==> s.spool.Some?)
    case Lock(i) => At(s, i) && s.pcs[i].Failed? && s.mutex.None?
    case Flag(i) => At(s, i) && s.pcs[i] == Holding(false)
    case Unlock(i) => At(s, i) && s.pcs[i] == Holding(true)
    case Keep(i) => At(s, i) && s.pcs[i].Storing?
    case Leave(i) => At(s, i) && s.pcs[i].Leaving?
    case Wait => s.main.Spawning? && s.spawned == |job.names| && s.wg == 0
    case Return => s.main.Folding?
  }

  function Put(job: Job, s: State, i: nat, version: string): Store
    requires i < |job.names| && s.spool.Some?
  {
    s.store[(job.names[i], job.key) := Object(s.spool.value, job.metadata, version)]
  }

  function Apply(job: Job, s: State, a: Action): State
    requires Enabled(job, s, a)
  {
    match a
    case Spawn => s.(spawned := s.spawned + 1, wg := s.wg + 1, pcs := s.pcs[s.spawned := Looking])
    case Look(i) => s.(pcs := s.pcs[i := if job.names[i] in job.clients then Uploading else Failed])
    case PutOk(i, v) =>
      s.(pcs := s.pcs[i := Storing(RemoteResult(job.names[i], job.key, v, Success))], store := Put(job, s, i, v))
    case PutFails(i, landed) =>
      s.(pcs := s.pcs[i := Failed], store := if landed.Some? then Put(job, s, i, landed.value) else s.store)
    case Lock(i) => s.(pcs := s.pcs[i := Holding(false)], mutex := Some(i))
    case Flag(i) => s.(pcs := s.pcs[i := Holding(true)], hasFailure := true)
    case Unlock(i) => s.(pcs := s.pcs[i := Storing(FailureOf(job, i))], mutex := None)
    case Keep(i) => s.(pcs := s.pcs[i := Leaving], results := s.results[i := Some(s.pcs[i].result)])
    case Leave(i) => s.(pcs := s.pcs[i := Gone], wg := s.wg - 1)
    case Wait => s.(main := Folding)
    case Return => s.(main := Returned, spool := if AllFailed(s.results) then s.spool else None)
  }

  /** The loop that decides whether the spool is kept. */
  predicate AllFailed(results: seq<Option<RemoteResult>>) {
    |results| > 0 && forall i :: 0 <= i < |results| ==> !(results[i].Some? && results[i].value.status == Success)
  }

  predicate Runs(job: Job, s: State, acts: seq<Action>)
    decreases |acts|
  {
    acts == [] || (Enabled(job, s, acts[0]) && Runs(job, Apply(job, s, acts[0]), acts[1..]))
  }

  function After(job: Job, s: State, acts: seq<Action>): State
    requires Runs(job, s, acts)
    decreases |acts|
  {
    if acts == [] then s else After(job, Apply(job, s, acts[0]), acts[1..])
  }

  /** A schedule does not depend on what the remotes already hold. */
  lemma {:induction false} StoreIrrelevant(job: Job, s: State, t: State, acts: seq<Action>)
    requires Runs(job, s, acts) && t == s.(store := t.store)
    ensures Runs(job, t, acts)
    ensures var u := After(job, t, acts); u == After(job, s, acts).(store := u.store)
    decreases |acts|
  {
    if acts != [] {
      StoreIrrelevant(job, Apply(job, s, acts[0]), Apply(job, t, acts[0]), acts[1..]);
    }
  }

  // ---- Counting ----

  function Weight(pc: Pc): nat {
    match pc
    case Unspawned => 8
    case Looking => 7
    case Uploading => 6
    case Failed => 5
    case Holding(flagged) => if flagged then 3 else 4
    case Storing(_) => 2
    case Leaving => 1
    case Gone => 0
  }

  predicate Active(pc: Pc) {
    !pc.Unspawned? && !pc.Gone?
  }

  function CountActive(pcs: seq<Pc>): nat {
    if pcs == [] then 0 else (if Active(pcs[0]) then 1 else 0) + CountActive(pcs[1..])
  }

  function TotalWeight(pcs: seq<Pc>): nat {
    if pcs == [] then 0 else Weight(pcs[0]) + TotalWeight(pcs[1..])
  }

  lemma {:induction false} Update(pcs: seq<Pc>, i: nat, pc: Pc)
    requires i < |pcs|
    ensures CountActive(pcs[i := pc]) ==
      CountActive(pcs) - (if Active(pcs[i]) then 1 else 0) + (if Active(pc) then 1 else 0)
    ensures TotalWeight(pcs[i := pc]) == TotalWeight(pcs) - Weight(pcs[i]) + Weight(pc)
  {
    if i == 0 {
      assert pcs[i := pc][1..] == pcs[1..];
    } else {
      Update(pcs[1..], i - 1, pc);
      assert pcs[i := pc][1..] == pcs[1..][i - 1 := pc];
    }
  }

  lemma {:induction false} NoneActive(pcs: seq<Pc>)
    ensures CountActive(pcs) == 0 <==> forall i :: 0 <= i < |pcs| ==> !Active(pcs[i])
  {
    if pcs != [] {
      NoneActive(pcs[1..]);
      assert pcs == [pcs[0]] + pcs[1..];
    }
  }

  lemma {:induction false} FreshCounts(n: nat)
    ensures CountActive(seq(n, _ => Unspawned)) == 0
  {
    NoneActive(seq(n, _ => Unspawned));
  }

  // ---- The invariant ----

  /** The stored object a success result promises. */
  ghost predicate Stored(job: Job, store: Store, r: RemoteResult) {
    (r.remote, r.key) in store && store[(r.remote, r.key)] == Object(job.cipher, job.metadata, r.version)
  }

  ghost predicate GoodResult(job: Job, store: Store, i: nat, r: RemoteResult)
    requires i < |job.names|
  {
    && r.remote == job.names[i] && r.key == job.key
    && ((r.status == Success && job.names[i] in job.clients && Stored(job, store, r)) || r == FailureOf(job, i))
  }

  /** What goroutine i has done so far is consistent with the shared state. */
  ghost predicate Local(job: Job, s: State, i: nat)
    requires Shaped(job, s) && i < |job.names|
  {
    match s.pcs[i]
    case Unspawned => s.results[i].None?
    case Looking => s.results[i].None?
    case Uploading => s.results[i].None? && job.names[i] in job.clients
    case Failed => s.results[i].None?
    case Holding(flagged) => s.results[i].None? && (flagged ==> s.hasFailure)
    case Storing(r) => s.results[i].None? && GoodResult(job, s.store, i, r) && (r.status == Failure ==> s.hasFailure)
    case Leaving => Settled(job, s, i)
    case Gone => Settled(job, s, i)
  }

  ghost predicate Settled(job: Job, s: State, i: nat)
    requires Shaped(job, s) && i < |job.names|
  {
    && s.results[i].Some? && GoodResult(job, s.store, i, s.results[i].value)
    && (s.results[i].value.status == Failure ==> s.hasFailure)
  }

  /** Goroutine i is the reason why the failure flag is set. */
  ghost predicate Guilty(s: State, i: nat)
    requires i < |s.pcs| == |s.results|
  {
    match s.pcs[i]
    case Holding(flagged) => flagged
    case Storing(r) => r.status == Failure
    case Leaving => s.results[i].Some? && s.results[i].value.status == Failure
    case Gone => s.results[i].Some? && s.results[i].value.status == Failure
    case _ => false
  }

  /** Nothing but this key at these remotes was touched. */
  ghost predicate OthersUntouched(job: Job, before: Store, after: Store) {
    forall rk :: rk in before && (rk.1 != job.key || rk.0 !in job.names) ==> rk in after && after[rk] == before[rk]
  }

  /** Nothing disappears, and what is new is this ciphertext under this key at one of these remotes. */
  ghost predicate OnlyThisBackup(job: Job, before: Store, after: Store) {
    && before.Keys <= after.Keys
    && forall rk <- after ::
         (rk in before && after[rk] == before[rk]) ||
         (rk.0 in job.names && rk.1 == job.key && after[rk].bytes == job.cipher && after[rk].metadata == job.metadata)
  }

  ghost predicate Inv(job: Job, store0: Store, s: State) {
    && Shaped(job, s)
    && s.wg == CountActive(s.pcs)
    && (forall i: nat :: i < |job.names| ==> (s.pcs[i].Unspawned? <==> s.spawned <= i))
    && (forall i: nat :: i < |job.names| ==> (s.pcs[i].Holding? <==> s.mutex == Some(i)))
    && (s.mutex.Some? ==> s.mutex.value < |job.names|)
    && (forall i: nat :: i < |job.names| ==> Local(job, s, i))
    && (s.hasFailure ==> exists i: nat :: i < |job.names| && Guilty(s, i))
    && (!s.main.Returned? ==> s.spool == Some(job.cipher))
    && OthersUntouched(job, store0, s.store)
    && OnlyThisBackup(job, store0, s.store)
    && (!s.main.Spawning? ==> s.spawned == |job.names| && s.wg == 0)
    && (s.main.Returned? ==> s.spool == if AllFailed(s.results) then Some(job.cipher) else None)
  }

  lemma InitInv(job: Job, store: Store)
    ensures Inv(job, store, Init(job, store))
  {
    FreshCounts(|job.names|);
  }

  lemma SpawnInv(job: Job, store0: Store, s: State)
    requires Inv(job, store0, s) && Enabled(job, s, Spawn)
    ensures Inv(job, store0, Apply(job, s, Spawn))
  {
    Update(s.pcs, s.spawned, Looking);
    var t := Apply(job, s, Spawn);
    forall i: nat | i < |job.names| ensures Local(job, t, i) {
      assert Local(job, s, i);
    }
    if s.hasFailure {
      var i: nat :| i < |job.names| && Guilty(s, i);
      assert Guilty(t, i);
    }
  }

  function Mover(a: Action): Option<nat> {
    match a
    case Look(i) => Some(i)
    case PutOk(i, _) => Some(i)
    case PutFails(i, _) => Some(i)
    case Lock(i) => Some(i)
    case Flag(i) => Some(i)
    case Unlock(i) => Some(i)
    case Keep(i) => Some(i)
    case Leave(i) => Some(i)
    case _ => None
  }

  /** A step of goroutine i leaves every other goroutine's private facts alone. */
  lemma OthersKeep(job: Job, store0: Store, s: State, a: Action, j: nat)
    requires job.Distinct() && Inv(job, store0, s) && Enabled(job, s, a)
    requires Mover(a).Some? && j < |job.names| && j != Mover(a).value
    ensures Local(job, Apply(job, s, a), j)
    ensures Guilty(s, j) ==> Guilty(Apply(job, s, a), j)
  {
    var i := Mover(a).value;
    assert i < |job.names|;
    assert job.names[i] != job.names[j];
    assert Local(job, s, j);
    assert Apply(job, s, a).pcs[j] == s.pcs[j];
  }

  lemma MoverKeeps(job: Job, store0: Store, s: State, a: Action)
    requires Inv(job, store0, s) && Enabled(job, s, a) && Mover(a).Some?
    ensures var i := Mover(a).value; i < |job.names| && Local(job, Apply(job, s, a), i)
    ensures Guilty(s, Mover(a).value) ==> Guilty(Apply(job, s, a), Mover(a).value)
    ensures a.Flag? ==> Guilty(Apply(job, s, a), Mover(a).value)
  {
    assert Local(job, s, Mover(a).value);
  }

  lemma MoveStore(job: Job, store0: Store, s: State, a: Action)
    requires Inv(job, store0, s) && Enabled(job, s, a)
    ensures OthersUntouched(job, store0, Apply(job, s, a).store)
    ensures OnlyThisBackup(job, store0, Apply(job, s, a).store)
  {
  }

  lemma MoveInv(job: Job, store0: Store, s: State, a: Action)
    requires job.Distinct() && Inv(job, store0, s) && Enabled(job, s, a) && Mover(a).Some?
    ensures Inv(job, store0, Apply(job, s, a))
  {
    var i := Mover(a).value;
    var t := Apply(job, s, a);
    assert i < |job.names|;
    MoveStore(job, store0, s, a);
    Update(s.pcs, i, t.pcs[i]);
    assert t.pcs == s.pcs[i := t.pcs[i]];
    assert Local(job, s, i);
    if !s.main.Spawning? {
      NoneActive(s.pcs);
    }
    forall j: nat | j < |job.names| ensures Local(job, t, j) && (Guilty(s, j) ==> Guilty(t, j)) {
      if j == i { MoverKeeps(job, store0, s, a); } else { OthersKeep(job, store0, s, a, j); }
    }
    if s.hasFailure {
      var j: nat :| j < |job.names| && Guilty(s, j);
      assert Guilty(t, j);
    } else if t.hasFailure {
      MoverKeeps(job, store0, s, a);
    }
  }

  lemma MainInv(job: Job, store0: Store, s: State, a: Action)
    requires Inv(job, store0, s) && Enabled(job, s, a) && (a.Wait? || a.Return?)
    ensures Inv(job, store0, Apply(job, s, a))
  {
    var t := Apply(job, s, a);
    forall i: nat | i < |job.names| ensures Local(job, t, i) {
      assert Local(job, s, i);
    }
    if s.hasFailure {
      var i: nat :| i < |job.names| && Guilty(s, i);
      assert Guilty(t, i);
    }
  }

  lemma StepInv(job: Job, store0: Store, s: State, a: Action)
    requires job.Distinct() && Inv(job, store0, s) && Enabled(job, s, a)
    ensures Inv(job, store0, Apply(job, s, a))
  {
    if a.Spawn? {
      SpawnInv(job, store0, s);
    } else if a.Wait? || a.Return? {
      MainInv(job, store0, s, a);
    } else {
      MoveInv(job, store0, s, a);
    }
  }

  lemma {:induction false} RunInv(job: Job, store0: Store, s: State, acts: seq<Action>)
    requires job.Distinct() && Inv(job, store0, s) && Runs(job, s, acts)
    ensures Inv(job, store0, After(job, s, acts))
    decreases |acts|
  {
    if acts != [] {
      StepInv(job, store0, s, acts[0]);
      RunInv(job, store0, Apply(job, s, acts[0]), acts[1..]);
    }
  }

  // ---- Theorems ----

  ghost predicate Succeeded(s: State, i: nat)
    requires i < |s.results|
  {
    s.results[i].Some? && s.results[i].value.status == Success
  }

  ghost predicate Fell(s: State, i: nat)
    requires i < |s.results|
  {
    s.results[i].Some? && s.results[i].value.status == Failure
  }

  /** What RunBackup's caller may rely on once the upload phase is over. */
  ghost predicate Outcome(job: Job, store0: Store, s: State) {
    && |s.results| == |job.names|
    && (forall i: nat :: i < |job.names| ==> s.results[i].Some? && GoodResult(job, s.store, i, s.results[i].value))
    && (s.hasFailure <==> exists i: nat :: i < |job.names| && Fell(s, i))
    && (s.spool.Some? <==> (|job.names| > 0 && forall i: nat :: i < |job.names| ==> Fell(s, i)))
    && OthersUntouched(job, store0, s.store) && OnlyThisBackup(job, store0, s.store)
  }

  lemma AllSettled(job: Job, store0: Store, s: State)
    requires Inv(job, store0, s) && !s.main.Spawning?
    ensures forall i: nat :: i < |job.names| ==> s.results[i].Some? && GoodResult(job, s.store, i, s.results[i].value)
    ensures forall i: nat :: i < |job.names| ==> (Fell(s, i) <==> !Succeeded(s, i))
    ensures s.hasFailure <==> exists i: nat :: i < |job.names| && Fell(s, i)
  {
    NoneActive(s.pcs);
    forall i: nat | i < |job.names|
      ensures s.results[i].Some? && GoodResult(job, s.store, i, s.results[i].value)
      ensures (Fell(s, i) <==> !Succeeded(s, i)) && (Fell(s, i) ==> s.hasFailure) && s.pcs[i].Gone?
    {
      assert !Active(s.pcs[i]) && Local(job, s, i);
    }
    if s.hasFailure {
      var i: nat :| i < |job.names| && Guilty(s, i);
      assert Fell(s, i);
    }
  }

  lemma SpoolFate(s: State)
    requires forall i: nat :: i < |s.results| ==> (Fell(s, i) <==> !Succeeded(s, i))
    ensures AllFailed(s.results) <==> (|s.results| > 0 && forall i: nat :: i < |s.results| ==> Fell(s, i))
  {
    if AllFailed(s.results) {
      forall i: nat | i < |s.results| ensures Fell(s, i) {
        assert !Succeeded(s, i);
      }
    } else if |s.results| > 0 {
      var i :| 0 <= i < |s.results| && s.results[i].Some? && s.results[i].value.status == Success;
      assert Succeeded(s, i);
    }
  }

  /**
   For every interleaving of the upload goroutines and every upload failure: result i belongs to remote
   i, a success names a stored object with this ciphertext, metadata and version, the failure flag is
   set exactly when some result failed, the spool survives iff there was a remote and all of them
   failed, nothing else in any remote changed, and even a failed upload has left behind either what was
   there or this backup.
   */
  lemma EveryInterleaving(job: Job, store0: Store, acts: seq<Action>)
    requires job.Distinct() && Runs(job, Init(job, store0), acts)
    requires After(job, Init(job, store0), acts).main.Returned?
    ensures Outcome(job, store0, After(job, Init(job, store0), acts))
  {
    InitInv(job, store0);
    RunInv(job, store0, Init(job, store0), acts);
    var s := After(job, Init(job, store0), acts);
    AllSettled(job, store0, s);
    SpoolFate(s);
  }

  /** A spool that survives is the complete ciphertext. */
  lemma KeptSpool(job: Job, store0: Store, acts: seq<Action>)
    requires job.Distinct() && Runs(job, Init(job, store0), acts)
    requires After(job, Init(job, store0), acts).main.Returned?
    ensures var s := After(job, Init(job, store0), acts); s.spool.Some? ==> s.spool == Some(job.cipher)
  {
    InitInv(job, store0);
    RunInv(job, store0, Init(job, store0), acts);
  }

  /** The spool is complete and in place during the whole upload phase. */
  lemma SpoolStaysDuringUploads(job: Job, store0: Store, acts: seq<Action>)
    requires job.Distinct() && Runs(job, Init(job, store0), acts)
    requires var s := After(job, Init(job, store0), acts); CountActive(s.pcs) > 0
    ensures After(job, Init(job, store0), acts).spool == Some(job.cipher)
  {
    InitInv(job, store0);
    RunInv(job, store0, Init(job, store0), acts);
  }

  /** What the outside wants for each remote: a stored version, or a failure. */
  ghost predicate Wanted(job: Job, want: seq<Option<string>>, i: nat)
    requires i < |want| == |job.names|
  {
    job.names[i] in job.clients && want[i].Some?
  }

  predicate Obeys(want: seq<Option<string>>, a: Action) {
    match a
    case PutOk(i, v) => i < |want| && want[i] == Some(v)
    case PutFails(i, _) => i < |want| && want[i].None?
    case _ => true
  }

  /** No deadlock on the mutex or the wait group, whatever the outside wants. */
  lemma CanStep(job: Job, store0: Store, s: State, want: seq<Option<string>>) returns (a: Action)
    requires Inv(job, store0, s) && !s.main.Returned? && |want| == |job.names|
    ensures Enabled(job, s, a) && Obeys(want, a)
  {
    NoneActive(s.pcs);
    if s.main.Folding? {
      a := Return;
    } else if s.spawned < |job.names| {
      a := Spawn;
    } else if s.wg == 0 {
      a := Wait;
    } else {
      var i :| 0 <= i < |s.pcs| && Active(s.pcs[i]);
      match s.pcs[i]
      case Looking => a := Look(i);
      case Uploading => a := if want[i].Some? then PutOk(i, want[i].value) else PutFails(i, None);
      case Failed => a := if s.mutex.None? then Lock(i) else HolderStep(job, s);
      case Holding(flagged) => a := if flagged then Unlock(i) else Flag(i);
      case Storing(_) => a := Keep(i);
      case Leaving => a := Leave(i);
    }
  }

  /** Until the phase is over some step is possible, and it need not be a failing upload. */
  lemma NeverStuck(job: Job, store0: Store, acts: seq<Action>) returns (a: Action)
    requires job.Distinct() && Runs(job, Init(job, store0), acts)
    requires !After(job, Init(job, store0), acts).main.Returned?
    ensures Enabled(job, After(job, Init(job, store0), acts), a) && !a.PutFails?
  {
    InitInv(job, store0);
    RunInv(job, store0, Init(job, store0), acts);
    a := CanStep(job, store0, After(job, Init(job, store0), acts), seq(|job.names|, _ => Some("")));
  }

  function HolderStep(job: Job, s: State): (a: Action)
    requires Shaped(job, s) && s.mutex.Some? && s.mutex.value < |s.pcs| && s.pcs[s.mutex.value].Holding?
    ensures Enabled(job, s, a) && !a.PutFails?
  {
    if s.pcs[s.mutex.value].flagged then Unlock(s.mutex.value) else Flag(s.mutex.value)
  }

  // ---- Every outcome can happen ----

  /** What goroutine i has done so far is what was wanted. */
  ghost predicate Agrees(job: Job, want: seq<Option<string>>, s: State, i: nat)
    requires Shaped(job, s) && i < |want| == |job.names|
  {
    match s.pcs[i]
    case Failed => !Wanted(job, want, i)
    case Holding(_) => !Wanted(job, want, i)
    case Storing(r) => AsWanted(job, want, i, r)
    case Leaving => s.results[i].Some? && AsWanted(job, want, i, s.results[i].value)
    case Gone => s.results[i].Some? && AsWanted(job, want, i, s.results[i].value)
    case _ => true
  }

  ghost predicate AsWanted(job: Job, want: seq<Option<string>>, i: nat, r: RemoteResult)
    requires i < |want| == |job.names|
  {
    r == if Wanted(job, want, i) then RemoteResult(job.names[i], job.key, want[i].value, Success)
         else RemoteResult(job.names[i], job.key, "", Failure)
  }

  lemma ObedientAgrees(job: Job, want: seq<Option<string>>, store0: Store, s: State, a: Action)
    requires Inv(job, store0, s) && Enabled(job, s, a) && |want| == |job.names| && Obeys(want, a)
    requires forall i: nat :: i < |job.names| ==> Agrees(job, want, s, i)
    ensures forall i: nat :: i < |job.names| ==> Agrees(job, want, Apply(job, s, a), i)
  {
    var t := Apply(job, s, a);
    forall i: nat | i < |job.names| ensures Agrees(job, want, t, i) {
      assert Agrees(job, want, s, i) && Local(job, s, i);
    }
  }

  lemma {:induction false} Steer(job: Job, want: seq<Option<string>>, store0: Store, s: State) returns (acts: seq<Action>)
    requires job.Distinct() && Inv(job, store0, s) && |want| == |job.names|
    requires forall i: nat :: i < |job.names| ==> Agrees(job, want, s, i)
    ensures Runs(job, s, acts) && (forall k :: 0 <= k < |acts| ==> Obeys(want, acts[k]))
    ensures var t := After(job, s, acts);
      t.main.Returned? && Inv(job, store0, t) && forall i: nat :: i < |job.names| ==> Agrees(job, want, t, i)
    decreases TotalWeight(s.pcs) + MainWeight(s.main)
  {
    if s.main.Returned? {
      acts := [];
    } else {
      var a := CanStep(job, store0, s, want);
      StepInv(job, store0, s, a);
      StepDecreases(job, store0, s, a);
      ObedientAgrees(job, want, store0, s, a);
      var rest := Steer(job, want, store0, Apply(job, s, a));
      acts := [a] + rest;
      assert acts[1..] == rest;
    }
  }

  /**
   Whatever pattern of successes and failures is wanted, some schedule brings it about; and a remote
   without a client fails in any case.
   */
  lemma AnyOutcome(job: Job, store0: Store, want: seq<Option<string>>) returns (acts: seq<Action>)
    requires job.Distinct() && |want| == |job.names|
    ensures Runs(job, Init(job, store0), acts) && (forall k :: 0 <= k < |acts| ==> Obeys(want, acts[k]))
    ensures var s := After(job, Init(job, store0), acts);
      && s.main.Returned? && |s.results| == |job.names|
      && forall i: nat :: i < |job.names| ==> s.results[i].Some? && AsWanted(job, want, i, s.results[i].value)
  {
    InitInv(job, store0);
    acts := Steer(job, want, store0, Init(job, store0));
    var s := After(job, Init(job, store0), acts);
    NoneActive(s.pcs);
    forall i: nat | i < |job.names| ensures s.results[i].Some? && AsWanted(job, want, i, s.results[i].value) {
      assert !Active(s.pcs[i]) && Agrees(job, want, s, i);
    }
  }

  // ---- Why a remote fails ----
  // ---- Why a remote fails ----

  /** Every remote of the job has a client. */
  predicate Covered(job: Job) {
    forall k :: 0 <= k < |job.names| ==> job.names[k] in job.clients
  }

  /** Goroutine i is on its failure path or has come through it. */
  ghost predicate AtFault(s: State, i: nat)
    requires i < |s.pcs| == |s.results|
  {
    || s.pcs[i].Failed? || s.pcs[i].Holding?
    || (s.pcs[i].Storing? && s.pcs[i].result.status == Failure)
    || Fell(s, i)
  }

  lemma {:induction false} FaultWasUpload(job: Job, s: State, acts: seq<Action>, i: nat)
    requires Shaped(job, s) && Covered(job) && Runs(job, s, acts) && i < |job.names| && !AtFault(s, i)
    requires Shaped(job, After(job, s, acts)) && AtFault(After(job, s, acts), i)
    ensures exists k :: 0 <= k < |acts| && acts[k].PutFails? && acts[k].i == i
    decreases |acts|
  {
    if acts[0].PutFails? && acts[0].i == i {
    } else {
      FaultWasUpload(job, Apply(job, s, acts[0]), acts[1..], i);
      var k :| 0 <= k < |acts| - 1 && acts[1..][k].PutFails? && acts[1..][k].i == i;
      assert acts[k + 1] == acts[1..][k];
    }
  }

  /** With a client for every remote, a result fails only because its upload failed: none lacks a client. */
  lemma FailureWasUpload(job: Job, store0: Store, acts: seq<Action>, i: nat)
    requires job.Distinct() && Covered(job) && Runs(job, Init(job, store0), acts) && i < |job.names|
    requires After(job, Init(job, store0), acts).main.Returned?
    ensures var s := After(job, Init(job, store0), acts);
      i < |s.results| && (Fell(s, i) ==> exists k :: 0 <= k < |acts| && acts[k].PutFails? && acts[k].i == i)
  {
    EveryInterleaving(job, store0, acts);
    InitInv(job, store0);
    RunInv(job, store0, Init(job, store0), acts);
    if Fell(After(job, Init(job, store0), acts), i) {
      FaultWasUpload(job, Init(job, store0), acts, i);
    }
  }

  function MainWeight(m: MainPc): nat {
    match m
    case Spawning => 2
    case Folding => 1
    case Returned => 0
  }

  lemma MoveDecreases(job: Job, s: State, a: Action)
    requires Enabled(job, s, a) && Mover(a).Some?
    ensures var i := Mover(a).value; var t := Apply(job, s, a);
      && i < |s.pcs| == |t.pcs| && t.pcs == s.pcs[i := t.pcs[i]] && t.main == s.main
      && Weight(t.pcs[i]) < Weight(s.pcs[i])
  {
  }

  /** Every step uses up weight, so every schedule of the upload phase is finite. */
  lemma StepDecreases(job: Job, store0: Store, s: State, a: Action)
    requires Inv(job, store0, s) && Enabled(job, s, a)
    ensures var t := Apply(job, s, a);
      TotalWeight(t.pcs) + MainWeight(t.main) < TotalWeight(s.pcs) + MainWeight(s.main)
  {
    if a.Spawn? {
      Update(s.pcs, s.spawned, Looking);
    } else if Mover(a).Some? {
      MoveDecreases(job, s, a);
      Update(s.pcs, Mover(a).value, Apply(job, s, a).pcs[Mover(a).value]);
    }
  }

  lemma {:induction false} FreshWeight(n: nat)
    ensures TotalWeight(seq(n, _ => Unspawned)) == 8 * n
  {
    if n > 0 {
      FreshWeight(n - 1);
      assert seq(n, _ => Unspawned)[1..] == seq(n - 1, _ => Unspawned);
    }
  }

  lemma {:induction false} LengthBound(job: Job, store0: Store, s: State, acts: seq<Action>)
    requires job.Distinct() && Inv(job, store0, s) && Runs(job, s, acts)
    ensures |acts| <= TotalWeight(s.pcs) + MainWeight(s.main)
    decreases |acts|
  {
    if acts != [] {
      StepInv(job, store0, s, acts[0]);
      StepDecreases(job, store0, s, acts[0]);
      LengthBound(job, store0, Apply(job, s, acts[0]), acts[1..]);
    }
  }

  /** With n remotes an upload phase takes at most 8n + 2 steps, whatever the schedule. */
  lemma EveryRunIsShort(job: Job, store0: Store, acts: seq<Action>)
    requires job.Distinct() && Runs(job, Init(job, store0), acts)
    ensures |acts| <= 8 * |job.names| + 2
  {
    InitInv(job, store0);
    FreshWeight(|job.names|);
    LengthBound(job, store0, Init(job, store0), acts);
  }
}

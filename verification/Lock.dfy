/**
 The namespace lock: the polling loop of AcquireLock over an arbitrary environment, and the protocol
 of any number of processes over the kernel's table of file locks.
 */
module Lock {
  import opened Base
  import opened Config

  /** Durations are in nanoseconds. */
  const POLL: int := 100_000_000

  function LockPath(dir: string, ns: string): string {
    dir + "/rbackup." + ns + ".lock"
  }

  lemma LockPathInjective(dir: string, ns1: string, ns2: string)
    ensures LockPath(dir, ns1) == LockPath(dir, ns2) <==> ns1 == ns2
    ensures LockPath(dir, ns1) == dir + "/rbackup." + ns1 + ".lock"
  {
    var front := dir + "/rbackup.";
    if LockPath(dir, ns1) == LockPath(dir, ns2) {
      assert ns1 == LockPath(dir, ns1)[|front|..|LockPath(dir, ns1)| - 5];
      assert ns2 == LockPath(dir, ns2)[|front|..|LockPath(dir, ns2)| - 5];
    }
  }

  // ---- Acquiring ----

  /**
   Everything the outside decides: whether the directory and the file can be made, whether attempt i
   finds the lock free, the clock before the first attempt, and the clock after a failed attempt i.
   */
  datatype World = World(dirOk: bool, openOk: bool, free: nat -> bool, start: int, now: nat -> int) {
    /** A sleep takes at least as long as it was asked to. */
    ghost predicate ClockRuns() {
      now(0) >= start && forall i: nat :: now(i + 1) >= now(i) + POLL
    }
  }

  lemma {:induction false} ClockBound(w: World, i: nat)
    requires w.ClockRuns()
    ensures w.now(i) >= w.start + i * POLL
  {
    if i > 0 {
      ClockBound(w, i - 1);
    }
  }

  class Held {
    const path: string
    var file: bool  // the file is open, so the lock is held
    var releases: nat

    constructor (path: string)
      ensures this.path == path && file && releases == 0
    {
      this.path, file, releases := path, true, 0;
    }

    /** Unlocks and closes the file. */
    method Release()
      modifies this
      ensures !file && releases == old(releases) + 1
    {
      file := false;
      releases := releases + 1;
    }
  }

  /** The attempts made before attempt n all found the lock taken. */
  predicate AllTaken(w: World, n: nat) {
    forall i: nat :: i < n ==> !w.free(i)
  }

  /** The lock can be had: at once, or at an attempt that the deadline still allows. */
  ghost predicate Obtainable(w: World, wait: nat) {
    w.dirOk && w.openOk &&
    if wait == 0 then w.free(0)
    else exists n: nat :: w.free(n) && forall i: nat :: i < n ==> w.now(i) <= w.start + wait
  }

  /**
   Without a wait there is one attempt.  With a wait the lock is taken at the first attempt that finds
   it free; there are at least one and at most floor(wait / 100ms) + 2 attempts, and a timeout is
   reported only when the clock has passed the deadline, which it had not at any earlier attempt.
   */
  method AcquireLock(dir: string, ns: string, wait: nat, w: World) returns (lock: Held?, attempts: nat)
    requires w.ClockRuns()
    ensures !w.dirOk || !w.openOk ==> lock == null && attempts == 0
    ensures w.dirOk && w.openOk ==> 1 <= attempts && AllTaken(w, attempts - 1)
    ensures w.dirOk && w.openOk ==> (lock != null <==> w.free(attempts - 1))
    ensures lock != null ==> fresh(lock) && lock.path == LockPath(dir, ns) && lock.file && lock.releases == 0
    ensures lock != null <==> Obtainable(w, wait)
    ensures wait == 0 ==> attempts <= 1
    ensures attempts <= wait / 100_000_000 + 2
    ensures wait > 0 ==> forall i: nat :: i + 1 < attempts ==> w.now(i) <= w.start + wait
    ensures wait > 0 && attempts > 0 && lock == null ==> w.now(attempts - 1) > w.start + wait
  {
    if !w.dirOk || !w.openOk {
      return null, 0;
    }
    attempts := 1;
    if wait == 0 {
      if !w.free(0) {
        return null, attempts;
      }
    } else {
      var deadline := w.start + wait;
      while !w.free(attempts - 1)
        invariant 1 <= attempts <= wait / POLL + 2
        invariant AllTaken(w, attempts - 1)
        invariant forall i: nat :: i + 1 < attempts ==> w.now(i) <= deadline
        decreases wait / POLL + 2 - attempts
      {
        if w.now(attempts - 1) > deadline {
          return null, attempts;
        }
        ClockBound(w, attempts - 1);
        Quotient(attempts - 1, wait);
        attempts := attempts + 1;
      }
    }
    lock := new Held(LockPath(dir, ns));
  }

  lemma Quotient(i: nat, wait: nat)
    requires i * POLL <= wait
    ensures i <= wait / POLL
  {
  }

  /** The bound on the attempts is reached: a lock that stays taken is tried exactly so often. */
  method ExactAttempts(dir: string, ns: string, wait: nat) returns (attempts: nat)
    requires wait > 0
    ensures attempts == wait / 100_000_000 + 2
  {
    var w := World(true, true, i => false, 0, i => i * 100_000_000);
    var lock;
    lock, attempts := AcquireLock(dir, ns, wait, w);
    assert w.now(attempts - 1) > wait;
  }

  // ---- Any number of processes ----

  /** One process: not started, polling an open lock file, between acquire and release, after unlocking. */
  datatype Pc = Outside | Polling(path: string) | Inside(path: string) | Unlocked(path: string)

  /** `owner` is the kernel's table: at most one open file description holds the lock of a path. */
  datatype State = State(pcs: map<nat, Pc>, owner: map<string, nat>)

  datatype Action =
    | Open(p: nat, path: string)
    | Try(p: nat)
    | GiveUp(p: nat)
    | Unlock(p: nat)
    | Close(p: nat)
    | Crash(p: nat)

  const INIT := State(map[], map[])

  function PcOf(s: State, p: nat): Pc {
    if p in s.pcs then s.pcs[p] else Outside
  }

  predicate Enabled(s: State, a: Action) {
    match a
    case Open(p, _) => PcOf(s, p).Outside?
    case Try(p) => PcOf(s, p).Polling?
    case GiveUp(p) => PcOf(s, p).Polling?
    case Unlock(p) => PcOf(s, p).Inside?
    case Close(p) => PcOf(s, p).Unlocked?
    case Crash(p) => !PcOf(s, p).Outside?
  }

  /** flock with LOCK_NB succeeds iff no one holds the path. */
  predicate Succeeds(s: State, p: nat) {
    PcOf(s, p).Polling? && PcOf(s, p).path !in s.owner
  }

  function Apply(s: State, a: Action): State
    requires Enabled(s, a)
  {
    match a
    case Open(p, path) => s.(pcs := s.pcs[p := Polling(path)])
    case Try(p) =>
      var path := PcOf(s, p).path;
      if Succeeds(s, p) then State(s.pcs[p := Inside(path)], s.owner[path := p]) else s
    case GiveUp(p) => s.(pcs := s.pcs[p := Outside])
    case Unlock(p) => State(s.pcs[p := Unlocked(PcOf(s, p).path)], s.owner - {PcOf(s, p).path})
    case Close(p) => s.(pcs := s.pcs[p := Outside])
    case Crash(p) =>
      // closing the descriptor releases the lock, if this process holds it
      State(s.pcs[p := Outside], if PcOf(s, p).Inside? then s.owner - {PcOf(s, p).path} else s.owner)
  }

  predicate Runs(s: State, acts: seq<Action>)
    decreases |acts|
  {
    acts == [] || (Enabled(s, acts[0]) && Runs(Apply(s, acts[0]), acts[1..]))
  }

  function After(s: State, acts: seq<Action>): State
    requires Runs(s, acts)
    decreases |acts|
  {
    if acts == [] then s else After(Apply(s, acts[0]), acts[1..])
  }

  /** The table and the processes agree on who is inside. */
  ghost predicate Inv(s: State) {
    forall p: nat, path: string :: PcOf(s, p) == Inside(path) <==> path in s.owner && s.owner[path] == p
  }

  lemma StepInv(s: State, a: Action)
    requires Inv(s) && Enabled(s, a)
    ensures Inv(Apply(s, a))
  {
    var t := Apply(s, a);
    forall q: nat, path: string
      ensures PcOf(t, q) == Inside(path) <==> path in t.owner && t.owner[path] == q
    {
      assert PcOf(s, q) == Inside(path) <==> path in s.owner && s.owner[path] == q;
      assert path in s.owner ==> PcOf(s, s.owner[path]) == Inside(path);
    }
  }

  lemma {:induction false} RunInv(s: State, acts: seq<Action>)
    requires Inv(s) && Runs(s, acts)
    ensures Inv(After(s, acts))
    decreases |acts|
  {
    if acts != [] {
      StepInv(s, acts[0]);
      RunInv(Apply(s, acts[0]), acts[1..]);
    }
  }

  /** Mutual exclusion, for any number of processes and any schedule, crashes included. */
  lemma MutualExclusion(acts: seq<Action>, p: nat, q: nat, dir: string, ns: string)
    requires Runs(INIT, acts)
    requires PcOf(After(INIT, acts), p) == Inside(LockPath(dir, ns))
    requires PcOf(After(INIT, acts), q) == Inside(LockPath(dir, ns))
    ensures p == q
  {
    RunInv(INIT, acts);
  }

  /**
   An attempt fails iff some process is inside the same namespace of the same directory, and otherwise
   puts the process inside; so namespaces never block each other.
   */
  lemma BlockedOnlyByOwnNamespace(acts: seq<Action>, p: nat, dir: string, ns: string)
    requires Runs(INIT, acts)
    requires PcOf(After(INIT, acts), p) == Polling(LockPath(dir, ns))
    ensures !Succeeds(After(INIT, acts), p) <==>
      exists q: nat :: PcOf(After(INIT, acts), q) == Inside(LockPath(dir, ns))
    ensures PcOf(Apply(After(INIT, acts), Try(p)), p) ==
      if exists q: nat :: PcOf(After(INIT, acts), q) == Inside(LockPath(dir, ns)) then Polling(LockPath(dir, ns))
      else Inside(LockPath(dir, ns))
    ensures forall other: string :: other != ns ==> LockPath(dir, other) != LockPath(dir, ns)
  {
    RunInv(INIT, acts);
    var s := After(INIT, acts);
    if !Succeeds(s, p) {
      assert PcOf(s, s.owner[LockPath(dir, ns)]) == Inside(LockPath(dir, ns));
    }
    forall other: string ensures LockPath(dir, other) == LockPath(dir, ns) <==> other == ns {
      LockPathInjective(dir, other, ns);
    }
  }

  /** Once the process inside unlocks or dies, the next attempt of any other process gets in. */
  lemma LeavingFrees(acts: seq<Action>, q: nat, p: nat, path: string, leave: Action)
    requires Runs(INIT, acts) && p != q
    requires PcOf(After(INIT, acts), q) == Inside(path) && PcOf(After(INIT, acts), p) == Polling(path)
    requires leave == Unlock(q) || leave == Crash(q)
    ensures var s := After(INIT, acts);
      Enabled(s, leave) && Enabled(Apply(s, leave), Try(p)) && PcOf(Apply(Apply(s, leave), Try(p)), p) == Inside(path)
  {
    RunInv(INIT, acts);
  }
}

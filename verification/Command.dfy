/** The backup command: the scope of the lock, the run, the tally and the notification. */
module Command {
  import opened Base
  import opened Config
  import Lock
  import Sorting
  import U = Upload
  import Run

  // ---- The tally ----

  /** The notification payload, the receipts themselves aside. */
  datatype Tally = Tally(failedOverall: bool, total: nat, succeeded: nat, failed: nat, skipped: nat, failedIds: seq<string>)

  function Count(rs: seq<Run.Receipt>, status: U.Status, n: nat): nat
    requires n <= |rs|
  {
    if n == 0 then 0 else Count(rs, status, n - 1) + if rs[n - 1].status == status then 1 else 0
  }

  /** The ids of the failed receipts, in order. */
  function FailedIds(rs: seq<Run.Receipt>, n: nat): seq<string>
    requires n <= |rs|
  {
    if n == 0 then [] else FailedIds(rs, n - 1) + if rs[n - 1].status == U.Failure then [rs[n - 1].id] else []
  }

  /** Receipt i, if it fails, is reported at the place given by the failures before it. */
  lemma {:induction false} FailedIdsInOrder(rs: seq<Run.Receipt>, n: nat, i: nat)
    requires i < n <= |rs| && rs[i].status == U.Failure
    ensures |FailedIds(rs, n)| == Count(rs, U.Failure, n) > Count(rs, U.Failure, i)
    ensures FailedIds(rs, n)[Count(rs, U.Failure, i)] == rs[i].id
  {
    FailedIdsLength(rs, n - 1);
    if i < n - 1 {
      FailedIdsInOrder(rs, n - 1, i);
    }
  }

  lemma {:induction false} FailedIdsLength(rs: seq<Run.Receipt>, n: nat)
    requires n <= |rs|
    ensures |FailedIds(rs, n)| == Count(rs, U.Failure, n)
  {
    if n > 0 {
      FailedIdsLength(rs, n - 1);
    }
  }

  ghost function With(rs: seq<Run.Receipt>, status: U.Status, n: nat): set<nat>
    requires n <= |rs|
  {
    set i: nat | i < n && rs[i].status == status
  }

  /** Count is the number of receipts with that status. */
  lemma {:induction false} CountIsSize(rs: seq<Run.Receipt>, status: U.Status, n: nat)
    requires n <= |rs|
    ensures Count(rs, status, n) == |With(rs, status, n)|
  {
    if n > 0 {
      CountIsSize(rs, status, n - 1);
      assert With(rs, status, n) == With(rs, status, n - 1) + if rs[n - 1].status == status then {n - 1} else {};
    }
  }

  /** t counts the first n receipts: total = succeeded + failed + skipped, failure iff some receipt fails. */
  ghost predicate Counts(t: Tally, rs: seq<Run.Receipt>, n: nat)
    requires n <= |rs|
  {
    && t.total == n == t.succeeded + t.failed + t.skipped
    && t.succeeded == Count(rs, U.Success, n) && t.failed == Count(rs, U.Failure, n)
    && t.skipped == Count(rs, U.Skipped, n)
    && t.failedIds == FailedIds(rs, n) && |t.failedIds| == t.failed
    && (t.failedOverall <==> exists i :: 0 <= i < n && rs[i].status == U.Failure)
  }

  method TallyReceipts(rs: seq<Run.Receipt>) returns (t: Tally)
    ensures Counts(t, rs, |rs|)
  {
    t := Tally(false, 0, 0, 0, 0, []);
    for i := 0 to |rs|
      invariant Counts(t, rs, i)
    {
      t := t.(total := t.total + 1);
      match rs[i].status
      case Success => t := t.(succeeded := t.succeeded + 1);
      case Failure => t := t.(failed := t.failed + 1, failedIds := t.failedIds + [rs[i].id], failedOverall := true);
      case Skipped => t := t.(skipped := t.skipped + 1);
    }
  }

  /** The whole run fails iff some result in some receipt does. */
  lemma RunFailsIffSomeResultFails(rs: seq<Run.Receipt>)
    requires forall i :: 0 <= i < |rs| ==> Run.Coherent(rs[i])
    ensures (exists i :: 0 <= i < |rs| && rs[i].status == U.Failure) <==>
      exists i :: 0 <= i < |rs| && Run.HasStatus(rs[i].results, U.Failure)
  {
    if i :| 0 <= i < |rs| && rs[i].status == U.Failure {
      assert Run.Coherent(rs[i]) && Run.HasStatus(rs[i].results, U.Failure);
    }
    if i :| 0 <= i < |rs| && Run.HasStatus(rs[i].results, U.Failure) {
      assert Run.Coherent(rs[i]) && rs[i].status == U.Failure;
    }
  }

  // ---- The command ----

  datatype Target = All | One(name: string)

  datatype Event = Acquired | Released | Notified(tally: Tally)

  /** Which of the steps around the run fail. */
  datatype Faults = Faults(secrets: bool, clients: bool, passphrase: bool, output: bool)

  /** What the command works on; the entry of a single-entry run has remotes of its own or defaults. */
  ghost predicate Ready(
    target: Target, env: Run.Env, backups: map<string, BackupEntry>, worlds: map<string, Run.World>)
  {
    match target
    case All =>
      && Run.Separate(env, backups)
      && (forall id <- backups :: !backups[id].manualOnly ==> id in worlds && Run.Complete(env, backups[id], worlds[id]))
    case One(name) =>
      name in backups ==> Run.GoodNames(env, backups[name]) && name in worlds && Run.Complete(env, backups[name], worlds[name])
  }

  /** Some entry that the command runs is sealed. */
  ghost predicate SealNeeded(target: Target, backups: map<string, BackupEntry>) {
    match target
    case All => exists id <- backups :: backups[id].seal && !backups[id].manualOnly
    case One(name) => name in backups && backups[name].seal
  }

  method AnySealRequired(target: Target, backups: map<string, BackupEntry>) returns (needed: bool)
    requires target.One? ==> target.name in backups
    ensures needed <==> SealNeeded(target, backups)
  {
    if target.One? {
      return backups[target.name].seal;
    }
    var todo := backups.Keys;
    while todo != {}
      invariant todo <= backups.Keys
      invariant forall id <- backups :: id !in todo ==> !(backups[id].seal && !backups[id].manualOnly)
      decreases todo
    {
      var id :| id in todo;
      if backups[id].seal && !backups[id].manualOnly {
        return true;
      }
      todo := todo - {id};
    }
    return false;
  }

  ghost predicate AllCoherent(rs: seq<Run.Receipt>) {
    forall i :: 0 <= i < |rs| ==> Run.Coherent(rs[i])
  }

  /** One coherent receipt for each entry the command runs, all of them true of the remotes at the end. */
  ghost predicate Accounted(
    target: Target, env: Run.Env, backups: map<string, BackupEntry>, worlds: map<string, Run.World>,
    after: U.Store, receipts: seq<Run.Receipt>)
  {
    match target
    case All => AllCoherent(receipts) && AllAccounted(env, backups, worlds, after, receipts)
    case One(name) =>
      AllCoherent(receipts) && name in backups && name in worlds &&
      OneAccounted(env, name, backups[name], worlds[name], after, receipts)
  }

  ghost predicate AllAccounted(
    env: Run.Env, backups: map<string, BackupEntry>, worlds: map<string, Run.World>, after: U.Store,
    receipts: seq<Run.Receipt>)
  {
    exists ids :: Sorting.IsSorted(backups.Keys, ids) && |receipts| == |ids| == |backups.Keys| &&
                  Run.AllReported(env, backups, worlds, ids, after, receipts)
  }

  /** The named entry runs even when it is manual-only, so its receipt is never a skipped one. */
  ghost predicate OneAccounted(
    env: Run.Env, name: string, e: BackupEntry, w: Run.World, after: U.Store, receipts: seq<Run.Receipt>)
  {
    && |receipts| == 1 && receipts[0].id == name && receipts[0].status != U.Skipped
    && Run.Complete(env, e, w) && Run.Decided(env, e, w, receipts[0]) && Run.TrueReceipt(env, e, w, after, receipts[0])
  }

  /** The run itself: all entries, or the named one even when it is manual-only. */
  method RunTarget(
    target: Target, env: Run.Env, backups: map<string, BackupEntry>, worlds: map<string, Run.World>, store: U.Store)
    returns (receipts: seq<Run.Receipt>, after: U.Store)
    requires Ready(target, env, backups, worlds)
    requires target.One? ==> target.name in backups
    ensures Accounted(target, env, backups, worlds, after, receipts)
  {
    match target {
      case All =>
        var ids;
        receipts, ids, after := Run.RunAll(env, backups, worlds, store);
        forall i | 0 <= i < |receipts| ensures Run.Coherent(receipts[i]) {
          assert Run.Reported(env, ids[i], backups[ids[i]], Run.WorldOf(worlds, ids[i]), after, receipts[i]);
        }
        SortedLength(backups.Keys, ids);
      case One(name) =>
        var r, kept;
        r, after, kept := Run.RunBackup(env, name, backups[name], worlds[name], store);
        receipts := [r];
    }
  }

  lemma {:induction false} SortedLength(all: set<string>, ids: seq<string>)
    requires Sorting.IsSorted(all, ids)
    ensures |ids| == |all|
    decreases |ids|
  {
    if ids == [] {
      assert forall x :: x !in all;
    } else {
      assert ids[0] in ids;
      Sorting.TailSorted(all, ids);
      SortedLength(all - {ids[0]}, ids[1..]);
    }
  }

  /** The closure releaseLock: a second call does nothing. */
  method ReleaseOnce(lock: Lock.Held, released: bool, trace: seq<Event>) returns (now: bool, events: seq<Event>)
    modifies lock
    ensures now && events == (if released then trace else trace + [Released])
    ensures lock.releases == old(lock.releases) + (if released then 0 else 1)
    ensures lock.file == (if released then old(lock.file) else false)
  {
    now, events := true, trace;
    if !released {
      lock.Release();
      events := trace + [Released];
    }
  }

  /** The steps between acquiring the lock and the notification all succeed. */
  ghost predicate Unhindered(target: Target, backups: map<string, BackupEntry>, faults: Faults) {
    !faults.clients && !(SealNeeded(target, backups) && faults.passphrase) && !faults.output
  }

  /** What the notification says: counts of receipts that are true of the remotes. */
  ghost predicate Honest(
    tally: Tally, target: Target, env: Run.Env, backups: map<string, BackupEntry>, worlds: map<string, Run.World>,
    after: U.Store, receipts: seq<Run.Receipt>)
  {
    match tally
    case Tally(failed, _, _, _, _, _) =>
      && Accounted(target, env, backups, worlds, after, receipts) && Counts(tally, receipts, |receipts|)
      && (failed <==> exists i :: 0 <= i < |receipts| && Run.HasStatus(receipts[i].results, U.Failure))
  }

  /** What happens under the lock, up to and including the tally. */
  method Work(
    target: Target, env: Run.Env, backups: map<string, BackupEntry>, worlds: map<string, Run.World>,
    store: U.Store, faults: Faults)
    returns (tally: Option<Tally>, receipts: seq<Run.Receipt>, after: U.Store)
    requires Ready(target, env, backups, worlds) && (target.One? ==> target.name in backups)
    ensures tally.Some? <==> Unhindered(target, backups, faults)
    ensures tally.Some? ==> Honest(tally.value, target, env, backups, worlds, after, receipts)
    ensures faults.clients || (SealNeeded(target, backups) && faults.passphrase) ==> receipts == [] && after == store
  {
    tally, receipts, after := None, [], store;
    if faults.clients {
      return;
    }
    var needed := AnySealRequired(target, backups);
    if needed && faults.passphrase {
      return;
    }
    receipts, after := RunTarget(target, env, backups, worlds, store);
    if faults.output {
      return;
    }
    var t := TallyReceipts(receipts);
    RunFailsIffSomeResultFails(receipts);
    tally := Some(t);
  }

  function Notice(tally: Option<Tally>): seq<Event> {
    if tally.Some? then [Notified(tally.value)] else []
  }

  /** The end of the command after the lock was acquired: release, notify, and the deferred release. */
  method Finish(lock: Lock.Held, tally: Option<Tally>) returns (ok: bool, trace: seq<Event>)
    requires lock.file && lock.releases == 0
    modifies lock
    ensures !lock.file && lock.releases == 1
    ensures trace == [Acquired, Released] + Notice(tally)
    ensures ok <==> tally.Some? && !tally.value.failedOverall
  {
    trace, ok := [Acquired], false;
    var released := false;
    if tally.Some? {
      released, trace := ReleaseOnce(lock, released, trace);
      trace := trace + [Notified(tally.value)];
      ok := !tally.value.failedOverall;
    }
    released, trace := ReleaseOnce(lock, released, trace);
  }

  /**
   On every path the lock, once acquired, is released exactly once, and before the notification.  The
   notification, sent exactly when nothing got in the way, is honest; the command succeeds iff it was
   sent and no result in any receipt failed.
   */
  method Backup(
    target: Target, env: Run.Env, backups: map<string, BackupEntry>, worlds: map<string, Run.World>, store: U.Store,
    dir: string, wait: nat, outside: Lock.World, faults: Faults)
    returns (ok: bool, trace: seq<Event>, lock: Lock.Held?, tally: Option<Tally>, receipts: seq<Run.Receipt>, after: U.Store)
    requires outside.ClockRuns() && Ready(target, env, backups, worlds)
    ensures lock != null ==> fresh(lock) && lock.path == Lock.LockPath(dir, env.ns) && lock.releases == 1 && !lock.file
    ensures lock != null <==>
      !(target.One? && target.name !in backups) && !faults.secrets && Lock.Obtainable(outside, wait)
    ensures tally.Some? <==> lock != null && Unhindered(target, backups, faults)
    ensures tally.Some? ==> Honest(tally.value, target, env, backups, worlds, after, receipts)
    ensures trace == (if lock == null then [] else [Acquired, Released]) + Notice(tally)
    ensures lock == null ==> after == store
    ensures ok <==> tally.Some? && !tally.value.failedOverall
  {
    trace, lock, ok, tally, receipts, after := [], null, false, None, [], store;
    if target.One? && target.name !in backups {
      return;
    }
    if faults.secrets {
      return;
    }
    var attempts;
    lock, attempts := Lock.AcquireLock(dir, env.ns, wait, outside);
    if lock == null {
      return;
    }
    tally, receipts, after := Work(target, env, backups, worlds, store, faults);
    ok, trace := Finish(lock, tally);
  }
}

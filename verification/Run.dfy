/**
 RunBackup and RunAll: the preflight, the pipeline, the metadata, the uploads, the receipts and the
 spool.  Everything the outside decides about one entry, every scheduling choice included, is a value
 of type World, so the contracts hold for all of them.
 */
module Run {
  import opened Base
  import opened Codecs
  import opened Text
  import opened Config
  import Sorting
  import Keys = Recipients
  import Sig = Signing
  import P = Pipeline
  import B = BackupPipeline
  import U = Upload
  import V = Validate

  /** The settings and libraries of a run; `clients` are the remotes a client was built for. */
  datatype Env = Env(
    ns: string, defaults: seq<string>, limit: nat, recipient: string, hostKey: string, passphrase: string,
    clients: set<string>, keyLib: Keys.KeyLib, signLib: Sig.SignLib, hexSha: Bytes -> string)

  /**
   One entry's outside world: whether the preflight succeeds (spool directory, free space, spool file),
   the source, the encryptors as age instantiates them for this run, the schedules, and the clock.
   */
  datatype World = World(
    preflightOk: bool, script: seq<Bytes>, tail: P.Tail, encrypt: Codec, seal: Codec,
    pipe: seq<B.Action>, uploads: seq<U.Action>, createdAt: string)

  function PlanOf(env: Env, e: BackupEntry, w: World): P.Plan {
    P.Plan(w.script, w.tail, e.seal, w.encrypt, if e.seal then w.seal else w.encrypt, env.limit)
  }

  /** The encryptors keep their contract and the pipeline schedule runs to its end. */
  ghost predicate PipeComplete(env: Env, e: BackupEntry, w: World) {
    var plan := PlanOf(env, e, w);
    && plan.Valid() && B.Runs(plan, B.Init(plan), w.pipe) && B.After(plan, B.Init(plan), w.pipe).main.Done?
  }

  function Verdict(env: Env, e: BackupEntry, w: World): B.Verdict
    requires PipeComplete(env, e, w)
  {
    B.After(PlanOf(env, e, w), B.Init(PlanOf(env, e, w)), w.pipe).main.verdict
  }

  function Spooled(env: Env, e: BackupEntry, w: World): Bytes
    requires PipeComplete(env, e, w)
  {
    B.After(PlanOf(env, e, w), B.Init(PlanOf(env, e, w)), w.pipe).core.spool.out
  }

  /** What the hash object has been fed. */
  function Hashed(env: Env, e: BackupEntry, w: World): Bytes
    requires PipeComplete(env, e, w)
  {
    B.After(PlanOf(env, e, w), B.Init(PlanOf(env, e, w)), w.pipe).core.spool.hashed
  }

  function Metadata(sha: string, createdAt: string, prints: string, signature: string): Sig.Metadata {
    var m := map[Sig.SHA_KEY := sha, Sig.CREATED_KEY := createdAt, Sig.RECIPIENT_KEY := prints];
    if signature != "" then m[Sig.SIGNATURE_KEY := signature] else m
  }

  /** The signature over the recorded hash: "" without a host key, None when signing fails. */
  function Signature(env: Env, sha: string): Option<string> {
    if env.hostKey == "" then Some("") else env.signLib.sign(env.hostKey, sha)
  }

  function Prints(env: Env): Option<string> {
    var lines := Keys.RecipientLines(env.recipient);
    if lines != [] && Keys.AllParse(env.keyLib, lines) then Some(Join(Keys.Prints(env.keyLib, lines), ',')) else None
  }

  function JobOf(env: Env, e: BackupEntry, w: World): U.Job
    requires PipeComplete(env, e, w)
    requires Prints(env).Some? && Signature(env, env.hexSha(Hashed(env, e, w))).Some?
  {
    var sha := env.hexSha(Hashed(env, e, w));
    U.Job(e.ResolvedRemotes(env.defaults), e.DerivedKey(env.ns), env.clients, Spooled(env, e, w),
          Metadata(sha, w.createdAt, Prints(env).value, Signature(env, sha).value))
  }

  /** RunBackup gets as far as the uploads. */
  ghost predicate Uploads(env: Env, e: BackupEntry, w: World)
    requires PipeComplete(env, e, w)
  {
    && (e.seal ==> env.passphrase != "") && w.preflightOk && Verdict(env, e, w) == B.Upload
    && Signature(env, env.hexSha(Hashed(env, e, w))).Some? && Prints(env).Some?
  }

  /** Both schedules run to their ends. */
  ghost predicate Complete(env: Env, e: BackupEntry, w: World) {
    && PipeComplete(env, e, w)
    && (Uploads(env, e, w) ==>
          var job := JobOf(env, e, w);
          U.Runs(job, U.Init(job, map[]), w.uploads) && U.After(job, U.Init(job, map[]), w.uploads).main.Returned?)
  }

  /** The receipt reports what the upload schedule decided, or a failure when it got no further. */
  ghost predicate Decided(env: Env, e: BackupEntry, w: World, r: Receipt)
    requires Complete(env, e, w)
  {
    if Uploads(env, e, w) then
      var decided := U.After(JobOf(env, e, w), U.Init(JobOf(env, e, w), map[]), w.uploads).results;
      |r.results| == |decided| && forall k :: 0 <= k < |decided| ==> Some(r.results[k]) == decided[k]
    else
      r.status == U.Failure && forall k :: 0 <= k < |r.results| ==> r.results[k].status == U.Failure && r.results[k].version == ""
  }

  /**
   Everything a backup needs, written out: the passphrase of a sealed entry, the preflight, a pipeline
   that reached the upload, a signature if there is a host key, recipients that all have fingerprints.
   */
  ghost predicate Prepared(env: Env, e: BackupEntry, w: World)
    requires PipeComplete(env, e, w)
  {
    && (e.seal ==> env.passphrase != "") && w.preflightOk && Verdict(env, e, w) == B.Upload
    && (env.hostKey == "" || env.signLib.sign(env.hostKey, env.hexSha(Spooled(env, e, w))).Some?)
    && (var lines := Keys.RecipientLines(env.recipient);
        lines != [] && forall i :: 0 <= i < |lines| ==> Keys.LinePrint(env.keyLib, lines[i]).Some?)
  }

  /** Moreover every remote has a client, and no upload fails. */
  ghost predicate Healthy(env: Env, e: BackupEntry, w: World)
    requires PipeComplete(env, e, w)
  {
    && Prepared(env, e, w)
    && (forall n :: n in e.ResolvedRemotes(env.defaults) ==> n in env.clients)
    && (forall k :: 0 <= k < |w.uploads| ==> !w.uploads[k].PutFails?)
  }

  /** A backup gets as far as the uploads exactly when it is prepared. */
  lemma UploadsIff(env: Env, e: BackupEntry, w: World)
    requires PipeComplete(env, e, w)
    ensures Uploads(env, e, w) <==> Prepared(env, e, w)
  {
    if Verdict(env, e, w) == B.Upload {
      B.UploadIsComplete(PlanOf(env, e, w), w.pipe);
    }
  }

  datatype Receipt = Receipt(id: string, status: U.Status, results: seq<U.RemoteResult>)

  /** A receipt fails iff one of its results does; otherwise all its results have its status. */
  ghost predicate Coherent(r: Receipt) {
    && (r.status == U.Failure <==> HasStatus(r.results, U.Failure))
    && (r.status != U.Failure ==> forall i :: 0 <= i < |r.results| ==> r.results[i].status == r.status)
  }

  ghost predicate HasStatus(results: seq<U.RemoteResult>, status: U.Status) {
    exists i :: 0 <= i < |results| && results[i].status == status
  }

  /** Result i belongs to remote i and carries the entry's key. */
  ghost predicate Aligned(env: Env, e: BackupEntry, results: seq<U.RemoteResult>) {
    var names := e.ResolvedRemotes(env.defaults);
    |results| == |names| && forall i :: 0 <= i < |names| ==> results[i].remote == names[i] && results[i].key == e.DerivedKey(env.ns)
  }

  /** These bytes and metadata are a complete, correctly described backup of the entry's source. */
  ghost predicate Genuine(env: Env, e: BackupEntry, w: World, bytes: Bytes, m: Sig.Metadata) {
    var plan := PlanOf(env, e, w);
    && plan.tail == P.Ends(P.NoErr) && plan.Total() != []
    && plan.Through(plan.Total()) == Some(bytes)
    && (env.limit > 0 ==> |bytes| <= env.limit)
    && Prints(env).Some? && Signature(env, env.hexSha(bytes)).Some?
    && m == Metadata(env.hexSha(bytes), w.createdAt, Prints(env).value, Signature(env, env.hexSha(bytes)).value)
  }

  /** A success result names a stored object that is genuine. */
  ghost predicate TrueResult(env: Env, e: BackupEntry, w: World, store: U.Store, r: U.RemoteResult) {
    r.status == U.Success ==>
      && (r.remote, r.key) in store && store[(r.remote, r.key)].version == r.version
      && Genuine(env, e, w, store[(r.remote, r.key)].bytes, store[(r.remote, r.key)].metadata)
  }

  ghost predicate TrueReceipt(env: Env, e: BackupEntry, w: World, store: U.Store, r: Receipt) {
    forall i :: 0 <= i < |r.results| ==> TrueResult(env, e, w, store, r.results[i])
  }

  /** failReceipt: one failure for each remote, or a single one when there are none. */
  method FailReceipt(id: string, key: string, names: seq<string>) returns (r: Receipt)
    ensures r.id == id && r.status == U.Failure && HasStatus(r.results, U.Failure)
    ensures forall i :: 0 <= i < |r.results| ==>
      r.results[i].status == U.Failure && r.results[i].key == key && r.results[i].version == ""
    ensures names == [] ==> |r.results| == 1 && r.results[0].remote == ""
    ensures names != [] ==> |r.results| == |names| && forall i :: 0 <= i < |names| ==> r.results[i].remote == names[i]
  {
    var results: seq<U.RemoteResult> := [];
    if |names| == 0 {
      results := [U.RemoteResult("", key, "", U.Failure)];
    } else {
      for i := 0 to |names|
        invariant |results| == i
        invariant forall k :: 0 <= k < i ==> results[k] == U.RemoteResult(names[k], key, "", U.Failure)
      {
        results := results + [U.RemoteResult(names[i], key, "", U.Failure)];
      }
    }
    assert results[0].status == U.Failure;
    r := Receipt(id, U.Failure, results);
  }

  /** Everything but the objects under this key is as before. */
  ghost predicate OtherKeysUntouched(before: U.Store, after: U.Store, key: string) {
    forall rk <- before :: rk.1 != key ==> rk in after && after[rk] == before[rk]
  }

  /** Nothing disappears, and every object that is new is a genuine backup of this entry. */
  ghost predicate OnlyGenuine(env: Env, e: BackupEntry, w: World, before: U.Store, after: U.Store) {
    && before.Keys <= after.Keys
    && forall rk <- after ::
         (rk in before && after[rk] == before[rk]) ||
         (rk.0 in e.ResolvedRemotes(env.defaults) && rk.1 == e.DerivedKey(env.ns) &&
          Genuine(env, e, w, after[rk].bytes, after[rk].metadata))
  }

  /**
   One backup.  `kept` is the spool file that is left behind.  The receipt is coherent and aligned with
   the remotes, every success in it is true, no other key is touched, a healthy backup succeeds, and a
   spool is kept exactly when uploads ran on at least one remote and all of them failed; it is then the
   complete ciphertext.
   */
  method RunBackup(env: Env, id: string, e: BackupEntry, w: World, store: U.Store)
    returns (r: Receipt, after: U.Store, kept: Option<Bytes>)
    requires Complete(env, e, w) && V.Distinct(e.ResolvedRemotes(env.defaults))
    ensures r.id == id && Coherent(r) && r.status != U.Skipped
    ensures e.ResolvedRemotes(env.defaults) != [] ==> Aligned(env, e, r.results)
    ensures TrueReceipt(env, e, w, after, r)
    ensures OtherKeysUntouched(store, after, e.DerivedKey(env.ns)) && OnlyGenuine(env, e, w, store, after)
    ensures Healthy(env, e, w) ==> r.status == U.Success
    ensures kept.Some? <==> Prepared(env, e, w) && e.ResolvedRemotes(env.defaults) != [] && !HasStatus(r.results, U.Success)
    ensures kept.Some? ==> PlanOf(env, e, w).Through(PlanOf(env, e, w).Total()) == kept
    ensures Decided(env, e, w, r) && (!Prepared(env, e, w) ==> r.status == U.Failure && after == store)
  {
    UploadsIff(env, e, w);
    var key := e.DerivedKey(env.ns);
    var names := e.ResolvedRemotes(env.defaults);
    after, kept := store, None;
    if (e.seal && env.passphrase == "") || !w.preflightOk {
      r := FailReceipt(id, key, names);
      return;
    }
    if Verdict(env, e, w) != B.Upload {
      r := FailReceipt(id, key, names);
      return;
    }
    B.UploadIsComplete(PlanOf(env, e, w), w.pipe);
    var sha := env.hexSha(Hashed(env, e, w));
    var signature := Signature(env, sha);
    var prints := Keys.RecipientFingerprints(env.keyLib, env.recipient);
    if signature.None? || prints.None? {
      r := FailReceipt(id, key, names);
      return;
    }
    r, after, kept := Fan(env, id, e, w, store);
    if Healthy(env, e, w) {
      NoneFails(env, e, w, r);
    }
  }

  /** When no upload fails and no client is missing, no result is a failure. */
  lemma NoneFails(env: Env, e: BackupEntry, w: World, r: Receipt)
    requires Complete(env, e, w) && Uploads(env, e, w) && Healthy(env, e, w)
    requires V.Distinct(e.ResolvedRemotes(env.defaults)) && Decided(env, e, w, r)
    ensures !HasStatus(r.results, U.Failure)
  {
    var job := JobOf(env, e, w);
    U.EveryInterleaving(job, map[], w.uploads);
    forall k: nat | k < |r.results| ensures r.results[k].status != U.Failure {
      U.FailureWasUpload(job, map[], w.uploads, k);
    }
  }

  /** The metadata of an object: four keys by name, the last only when there is a signature. */
  lemma MetadataFields(sha: string, createdAt: string, prints: string, signature: string)
    ensures var m := Metadata(sha, createdAt, prints, signature);
      && "x-rbackup-sha256" in m && m["x-rbackup-sha256"] == sha
      && "x-rbackup-created-at" in m && m["x-rbackup-created-at"] == createdAt
      && "x-rbackup-recipient-fp" in m && m["x-rbackup-recipient-fp"] == prints
      && ("x-rbackup-signature" in m <==> signature != "")
      && (signature != "" ==> m["x-rbackup-signature"] == signature)
  {
    assert |Sig.SHA_KEY| == 16 && |Sig.CREATED_KEY| == 20 && |Sig.RECIPIENT_KEY| == 22 && |Sig.SIGNATURE_KEY| == 19;
  }

  /** What a genuine object says: the hash of its bytes, and a signature of that hash iff there is a host key. */
  lemma GenuineFields(env: Env, e: BackupEntry, w: World, bytes: Bytes, m: Sig.Metadata)
    requires Genuine(env, e, w, bytes, m)
    ensures "x-rbackup-sha256" in m && m["x-rbackup-sha256"] == env.hexSha(bytes)
    ensures "x-rbackup-created-at" in m && m["x-rbackup-created-at"] == w.createdAt
    ensures env.hostKey == "" ==> "x-rbackup-signature" !in m
    ensures env.hostKey != "" ==> env.signLib.sign(env.hostKey, env.hexSha(bytes)).Some?
    ensures env.hostKey != "" && env.signLib.sign(env.hostKey, env.hexSha(bytes)).value != "" ==>
      "x-rbackup-signature" in m && Some(m["x-rbackup-signature"]) == env.signLib.sign(env.hostKey, env.hexSha(bytes))
  {
    MetadataFields(env.hexSha(bytes), w.createdAt, Prints(env).value, Signature(env, env.hexSha(bytes)).value);
  }

  /** The source ends well, its output fits, and the keys work. */
  ghost predicate Feasible(env: Env, e: BackupEntry, w: World) {
    var once := w.encrypt.final(Concat(w.script));
    var out := if e.seal && once.Some? then w.seal.final(once.value) else once;
    var lines := Keys.RecipientLines(env.recipient);
    && w.encrypt.Valid() && w.seal.Valid() && w.tail == P.Ends(P.NoErr) && Concat(w.script) != []
    && (e.seal ==> env.passphrase != "") && w.preflightOk
    && out.Some? && (env.limit > 0 ==> |out.value| <= env.limit)
    && (env.hostKey == "" || env.signLib.sign(env.hostKey, env.hexSha(out.value)).Some?)
    && lines != [] && (forall i :: 0 <= i < |lines| ==> Keys.LinePrint(env.keyLib, lines[i]).Some?)
  }

  lemma SomePipelineEnds(env: Env, e: BackupEntry, w0: World) returns (w: World)
    requires Feasible(env, e, w0)
    ensures w == w0.(pipe := w.pipe) && PipeComplete(env, e, w) && Prepared(env, e, w)
  {
    var plan := PlanOf(env, e, w0);
    var pipe := B.SomeRunEnds(plan);
    w := w0.(pipe := pipe);
    assert PlanOf(env, e, w) == plan;
    B.UploadIsComplete(plan, pipe);
  }

  lemma SomeUploadsSucceed(job: U.Job) returns (acts: seq<U.Action>)
    requires job.Distinct()
    ensures U.Runs(job, U.Init(job, map[]), acts) && U.After(job, U.Init(job, map[]), acts).main.Returned?
    ensures forall k :: 0 <= k < |acts| ==> !acts[k].PutFails?
  {
    var want := seq(|job.names|, _ => Some(""));
    acts := U.AnyOutcome(job, map[], want);
    assert forall k :: 0 <= k < |acts| ==> U.Obeys(want, acts[k]);
  }

  /**
   A backup can succeed: when it is feasible and every remote has a client, there are schedules of the
   pipeline and of the uploads that make it healthy.
   */
  lemma SomeBackupSucceeds(env: Env, e: BackupEntry, w0: World) returns (w: World)
    requires Feasible(env, e, w0) && V.Distinct(e.ResolvedRemotes(env.defaults))
    requires forall n :: n in e.ResolvedRemotes(env.defaults) ==> n in env.clients
    ensures w == w0.(pipe := w.pipe, uploads := w.uploads)
    ensures Complete(env, e, w) && Healthy(env, e, w)
  {
    var piped := SomePipelineEnds(env, e, w0);
    UploadsIff(env, e, piped);
    var uploads := SomeUploadsSucceed(JobOf(env, e, piped));
    w := piped.(uploads := uploads);
    SameButUploads(env, e, piped, w);
  }

  /** The schedule of the uploads has no part in what comes before it. */
  lemma SameButUploads(env: Env, e: BackupEntry, v: World, w: World)
    requires w == v.(uploads := w.uploads) && PipeComplete(env, e, v) && Prepared(env, e, v)
    ensures PipeComplete(env, e, w) && Prepared(env, e, w) && Uploads(env, e, v) && Uploads(env, e, w)
    ensures JobOf(env, e, w) == JobOf(env, e, v)
  {
    assert PlanOf(env, e, w) == PlanOf(env, e, v);
    UploadsIff(env, e, v);
    UploadsIff(env, e, w);
  }

  function Unwrap(slots: seq<Option<U.RemoteResult>>): (results: seq<U.RemoteResult>)
    requires forall i :: 0 <= i < |slots| ==> slots[i].Some?
    ensures |results| == |slots| && forall k :: 0 <= k < |slots| ==> Some(results[k]) == slots[k]
  {
    seq(|slots|, i requires 0 <= i < |slots| => slots[i].value)
  }

  /** The upload phase and the fold of its results. */
  method Fan(env: Env, id: string, e: BackupEntry, w: World, store: U.Store)
    returns (r: Receipt, after: U.Store, kept: Option<Bytes>)
    requires Complete(env, e, w) && Uploads(env, e, w) && V.Distinct(e.ResolvedRemotes(env.defaults))
    ensures r.id == id && Coherent(r) && r.status != U.Skipped && Aligned(env, e, r.results)
    ensures Decided(env, e, w, r)
    ensures TrueReceipt(env, e, w, after, r)
    ensures OtherKeysUntouched(store, after, e.DerivedKey(env.ns)) && OnlyGenuine(env, e, w, store, after)
    ensures kept.Some? <==> e.ResolvedRemotes(env.defaults) != [] && !HasStatus(r.results, U.Success)
    ensures kept.Some? ==> kept == Some(Spooled(env, e, w))
  {
    var job := JobOf(env, e, w);
    U.StoreIrrelevant(job, U.Init(job, map[]), U.Init(job, store), w.uploads);
    var s := U.After(job, U.Init(job, store), w.uploads);
    U.EveryInterleaving(job, store, w.uploads);
    U.KeptSpool(job, store, w.uploads);
    var results := Unwrap(s.results);
    r := Receipt(id, if s.hasFailure then U.Failure else U.Success, results);
    after, kept := s.store, s.spool;
    FoldedResults(job, store, s, results);
    StoredIsGenuine(env, e, w, store, s, r);
    NewIsGenuine(env, e, w, store, after);
  }

  lemma FoldedResults(job: U.Job, store: U.Store, s: U.State, results: seq<U.RemoteResult>)
    requires U.Outcome(job, store, s) && |results| == |s.results|
    requires forall k :: 0 <= k < |results| ==> Some(results[k]) == s.results[k]
    ensures s.hasFailure <==> HasStatus(results, U.Failure)
    ensures forall k :: 0 <= k < |results| ==> results[k].status in {U.Success, U.Failure}
    ensures forall k :: 0 <= k < |results| ==> results[k].remote == job.names[k] && results[k].key == job.key
    ensures s.spool.Some? <==> job.names != [] && !HasStatus(results, U.Success)
    ensures OtherKeysUntouched(store, s.store, job.key)
  {
    forall k: nat | k < |results|
      ensures U.GoodResult(job, s.store, k, results[k]) && (U.Fell(s, k) <==> results[k].status == U.Failure)
    {
      assert s.results[k].Some?;
    }
    if HasStatus(results, U.Failure) {
      var k: nat :| k < |results| && results[k].status == U.Failure;
      assert U.Fell(s, k);
    }
    if !HasStatus(results, U.Success) {
      forall k: nat | k < |results| ensures U.Fell(s, k) {
        assert results[k].status != U.Success;
      }
    } else {
      var k: nat :| k < |results| && results[k].status == U.Success;
      assert !U.Fell(s, k);
    }
  }

  lemma NewIsGenuine(env: Env, e: BackupEntry, w: World, store: U.Store, after: U.Store)
    requires Complete(env, e, w) && Uploads(env, e, w)
    requires U.OnlyThisBackup(JobOf(env, e, w), store, after)
    ensures OnlyGenuine(env, e, w, store, after)
  {
    B.UploadIsComplete(PlanOf(env, e, w), w.pipe);
  }

  lemma StoredIsGenuine(env: Env, e: BackupEntry, w: World, store: U.Store, s: U.State, r: Receipt)
    requires Complete(env, e, w) && Uploads(env, e, w)
    requires U.Outcome(JobOf(env, e, w), store, s) && |r.results| == |s.results|
    requires forall k :: 0 <= k < |r.results| ==> Some(r.results[k]) == s.results[k]
    ensures TrueReceipt(env, e, w, s.store, r)
  {
    var job := JobOf(env, e, w);
    B.UploadIsComplete(PlanOf(env, e, w), w.pipe);
    assert Genuine(env, e, w, job.cipher, job.metadata);
    forall k: nat | k < |r.results| ensures TrueResult(env, e, w, s.store, r.results[k]) {
      assert U.GoodResult(job, s.store, k, s.results[k].value);
    }
  }

  /**
   A validated recipient text with a comment line makes every backup fail, however well everything else
   goes; without one, the fingerprints never stand in the way.
   */
  lemma CommentStopsBackups(p: V.Parsers, env: Env, e: BackupEntry, w: World, r: Receipt)
    requires Keys.Agree(p, env.keyLib) && V.GoodEncryption(p, env.recipient) && Trim(env.recipient) == env.recipient
    requires Complete(env, e, w) && Decided(env, e, w, r)
    ensures Keys.HasComment(env.recipient) ==> r.status == U.Failure && !Uploads(env, e, w)
    ensures !Keys.HasComment(env.recipient) ==> Prints(env).Some?
  {
    Keys.AcceptedHasPrintsIff(p, env.keyLib, env.recipient);
  }

  // ---- All entries ----

  lemma ValidatedRemotes(env: Env, backups: map<string, BackupEntry>, known: seq<string>, id: string)
    requires V.AllGood(backups, backups.Keys, env.defaults, known) && id in backups
    ensures GoodNames(env, backups[id])
  {
    assert V.GoodEntry(id, backups[id], env.defaults, known);
  }

  lemma ApartKeys(env: Env, backups: map<string, BackupEntry>, id: string, other: string)
    requires V.AllApart(backups, backups.Keys, env.ns)
    requires id in backups && other in backups && id != other
    requires V.NormalEntry(backups[id]) == backups[id] && V.NormalEntry(backups[other]) == backups[other]
    ensures KeysDiffer(env, backups[id], backups[other])
  {
    assert V.Apart(id, other, backups, env.ns);
    assert V.KeyOf(backups[id], env.ns) == backups[id].DerivedKey(env.ns);
    assert V.KeyOf(backups[other], env.ns) == backups[other].DerivedKey(env.ns);
  }

  /** The entry resolves to at least one remote and to none twice. */
  ghost predicate GoodNames(env: Env, e: BackupEntry) {
    e.ResolvedRemotes(env.defaults) != [] && V.Distinct(e.ResolvedRemotes(env.defaults))
  }

  /** What the run relies on: distinct remotes within an entry, distinct keys between entries. */
  ghost predicate Separate(env: Env, backups: map<string, BackupEntry>) {
    && (forall id <- backups :: GoodNames(env, backups[id]))
    && (forall id <- backups, other <- backups :: id != other ==> KeysDiffer(env, backups[id], backups[other]))
  }

  ghost predicate KeysDiffer(env: Env, e: BackupEntry, f: BackupEntry) {
    e.DerivedKey(env.ns) != f.DerivedKey(env.ns)
  }

  lemma TrimmedKeysDiffer(env: Env, backups: map<string, BackupEntry>)
    requires V.AllApart(backups, backups.Keys, env.ns) && V.AllTrimmed(backups)
    ensures forall id <- backups, other <- backups :: id != other ==> KeysDiffer(env, backups[id], backups[other])
  {
    forall id <- backups, other <- backups | id != other ensures KeysDiffer(env, backups[id], backups[other]) {
      ApartKeys(env, backups, id, other);
    }
  }

  lemma GoodEntriesHaveNames(env: Env, backups: map<string, BackupEntry>, known: seq<string>)
    requires V.AllGood(backups, backups.Keys, env.defaults, known)
    ensures forall id <- backups :: GoodNames(env, backups[id])
  {
    forall id <- backups ensures GoodNames(env, backups[id]) {
      ValidatedRemotes(env, backups, known, id);
    }
  }

  /** Validation is what keeps the entries apart. */
  lemma ValidatedIsSeparate(env: Env, backups: map<string, BackupEntry>, known: seq<string>)
    requires V.GoodBackups(backups, env.ns, env.defaults, known) && V.AllTrimmed(backups)
    ensures Separate(env, backups)
  {
    TrimmedKeysDiffer(env, backups);
    GoodEntriesHaveNames(env, backups, known);
  }

  method SkippedReceipt(env: Env, id: string, e: BackupEntry) returns (r: Receipt)
    ensures r.id == id && r.status == U.Skipped && Coherent(r) && Aligned(env, e, r.results)
  {
    var names := e.ResolvedRemotes(env.defaults);
    var results: seq<U.RemoteResult> := [];
    for i := 0 to |names|
      invariant |results| == i
      invariant forall k :: 0 <= k < i ==> results[k] == U.RemoteResult(names[k], e.DerivedKey(env.ns), "", U.Skipped)
    {
      results := results + [U.RemoteResult(names[i], e.DerivedKey(env.ns), "", U.Skipped)];
    }
    r := Receipt(id, U.Skipped, results);
  }

  /** A receipt stays true while only other keys are written. */
  lemma StaysTrue(env: Env, e: BackupEntry, w: World, before: U.Store, after: U.Store, r: Receipt, key: string)
    requires TrueReceipt(env, e, w, before, r) && Aligned(env, e, r.results)
    requires OtherKeysUntouched(before, after, key) && key != e.DerivedKey(env.ns)
    ensures TrueReceipt(env, e, w, after, r)
  {
    forall i | 0 <= i < |r.results| ensures TrueResult(env, e, w, after, r.results[i]) {
      assert TrueResult(env, e, w, before, r.results[i]);
    }
  }

  /** What one entry's receipt promises at this point of the run. */
  ghost predicate Reported(env: Env, id: string, e: BackupEntry, w: Option<World>, store: U.Store, r: Receipt) {
    && r.id == id && Coherent(r) && Aligned(env, e, r.results)
    && (r.status == U.Skipped <==> e.manualOnly)
    && (!e.manualOnly ==>
          w.Some? && Complete(env, e, w.value) && Decided(env, e, w.value, r) && TrueReceipt(env, e, w.value, store, r))
  }

  ghost predicate AllReported(
    env: Env, backups: map<string, BackupEntry>, worlds: map<string, World>, ids: seq<string>, store: U.Store,
    receipts: seq<Receipt>)
  {
    |receipts| <= |ids| && forall i :: 0 <= i < |receipts| ==>
      ids[i] in backups && Reported(env, ids[i], backups[ids[i]], WorldOf(worlds, ids[i]), store, receipts[i])
  }

  function WorldOf(worlds: map<string, World>, id: string): Option<World> {
    if id in worlds then Some(worlds[id]) else None
  }

  lemma StaysReported(
    env: Env, id: string, e: BackupEntry, w: Option<World>, before: U.Store, after: U.Store, r: Receipt, key: string)
    requires Reported(env, id, e, w, before, r)
    requires OtherKeysUntouched(before, after, key) && key != e.DerivedKey(env.ns)
    ensures Reported(env, id, e, w, after, r)
  {
    if !e.manualOnly {
      StaysTrue(env, e, w.value, before, after, r, key);
    }
  }

  lemma AllStayReported(
    env: Env, backups: map<string, BackupEntry>, worlds: map<string, World>, ids: seq<string>,
    before: U.Store, after: U.Store, receipts: seq<Receipt>, id: string)
    requires AllReported(env, backups, worlds, ids, before, receipts) && id in backups
    requires forall i :: 0 <= i < |receipts| ==> ids[i] in backups && KeysDiffer(env, backups[ids[i]], backups[id])
    requires OtherKeysUntouched(before, after, backups[id].DerivedKey(env.ns))
    ensures AllReported(env, backups, worlds, ids, after, receipts)
  {
    forall i | 0 <= i < |receipts|
      ensures Reported(env, ids[i], backups[ids[i]], WorldOf(worlds, ids[i]), after, receipts[i])
    {
      assert KeysDiffer(env, backups[ids[i]], backups[id]);
      StaysReported(env, ids[i], backups[ids[i]], WorldOf(worlds, ids[i]), before, after, receipts[i],
                    backups[id].DerivedKey(env.ns));
    }
  }

  lemma OneMore(
    env: Env, backups: map<string, BackupEntry>, worlds: map<string, World>, ids: seq<string>, store: U.Store,
    receipts: seq<Receipt>, r: Receipt)
    requires AllReported(env, backups, worlds, ids, store, receipts) && |receipts| < |ids|
    requires ids[|receipts|] in backups
    requires var id := ids[|receipts|]; Reported(env, id, backups[id], WorldOf(worlds, id), store, r)
    ensures AllReported(env, backups, worlds, ids, store, receipts + [r])
  {
    var more := receipts + [r];
    forall i | 0 <= i < |more|
      ensures ids[i] in backups && Reported(env, ids[i], backups[ids[i]], WorldOf(worlds, ids[i]), store, more[i])
    {
      if i < |receipts| {
        assert more[i] == receipts[i];
      }
    }
  }

  /** One entry of the run: its receipt, and what it leaves in the remotes. */
  method RunEntry(env: Env, id: string, e: BackupEntry, w: Option<World>, store: U.Store)
    returns (r: Receipt, after: U.Store)
    requires GoodNames(env, e) && (!e.manualOnly ==> w.Some? && Complete(env, e, w.value))
    ensures Reported(env, id, e, w, after, r)
    ensures OtherKeysUntouched(store, after, e.DerivedKey(env.ns))
    ensures e.manualOnly ==> after == store
  {
    if e.manualOnly {
      after := store;
      r := SkippedReceipt(env, id, e);
    } else {
      var kept;
      r, after, kept := RunBackup(env, id, e, w.value, store);
    }
  }

  /**
   Receipts are true at the end of the run.  For a validated configuration there is one receipt per
   entry, in order of id; manual-only entries are skipped; and every result marked success names an
   object that at the end still holds that entry's ciphertext, metadata and version.  Only keys of
   entries that run are written.
   */
  method RunAll(env: Env, backups: map<string, BackupEntry>, worlds: map<string, World>, store: U.Store)
    returns (receipts: seq<Receipt>, ids: seq<string>, after: U.Store)
    requires Separate(env, backups)
    requires forall id <- backups :: !backups[id].manualOnly ==> id in worlds && Complete(env, backups[id], worlds[id])
    ensures Sorting.IsSorted(backups.Keys, ids) && |receipts| == |ids|
    ensures AllReported(env, backups, worlds, ids, after, receipts)
    ensures SkippedUntouched(env, backups, store, after)
  {
    ids := Sorting.SortStrings(backups.Keys);
    SortedIds(backups, ids);
    receipts, after := RunIds(env, backups, worlds, ids, store);
  }

  /** Only the keys of entries that run are written. */
  ghost predicate SkippedUntouched(env: Env, backups: map<string, BackupEntry>, before: U.Store, after: U.Store) {
    forall rk <- before ::
      (forall id <- backups :: !backups[id].manualOnly ==> rk.1 != backups[id].DerivedKey(env.ns)) ==>
        rk in after && after[rk] == before[rk]
  }

  lemma StaysUntouched(
    env: Env, backups: map<string, BackupEntry>, before: U.Store, now: U.Store, next: U.Store, id: string)
    requires SkippedUntouched(env, backups, before, now) && id in backups
    requires OtherKeysUntouched(now, next, backups[id].DerivedKey(env.ns))
    requires backups[id].manualOnly ==> next == now
    ensures SkippedUntouched(env, backups, before, next)
  {
  }

  /** Ids without repetition that are all configured. */
  ghost predicate Ids(backups: map<string, BackupEntry>, ids: seq<string>) {
    (forall i :: 0 <= i < |ids| ==> ids[i] in backups) && V.Distinct(ids)
  }

  lemma SortedIds(backups: map<string, BackupEntry>, ids: seq<string>)
    requires Sorting.IsSorted(backups.Keys, ids)
    ensures Ids(backups, ids)
  {
    forall i | 0 <= i < |ids| ensures ids[i] in backups {
      assert ids[i] in ids;
    }
    forall i, j | 0 <= i < j < |ids| ensures ids[i] != ids[j] {
      Sorting.LessTrichotomy(ids[i], ids[j]);
    }
  }

  method RunIds(env: Env, backups: map<string, BackupEntry>, worlds: map<string, World>, ids: seq<string>, store: U.Store)
    returns (receipts: seq<Receipt>, after: U.Store)
    requires Separate(env, backups) && Ids(backups, ids)
    requires forall id <- backups :: !backups[id].manualOnly ==> id in worlds && Complete(env, backups[id], worlds[id])
    ensures |receipts| == |ids| && AllReported(env, backups, worlds, ids, after, receipts)
    ensures SkippedUntouched(env, backups, store, after)
  {
    receipts, after := [], store;
    for i := 0 to |ids|
      invariant |receipts| == i && AllReported(env, backups, worlds, ids, after, receipts)
      invariant SkippedUntouched(env, backups, store, after)
    {
      var id := ids[i];
      var r, next := RunEntry(env, id, backups[id], WorldOf(worlds, id), after);
      AllStayReported(env, backups, worlds, ids, after, next, receipts, id);
      OneMore(env, backups, worlds, ids, next, receipts, r);
      StaysUntouched(env, backups, store, after, next, id);
      receipts, after := receipts + [r], next;
    }
  }
}

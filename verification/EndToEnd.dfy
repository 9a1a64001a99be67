/**
 Backup and restore together: an object that a receipt calls a success restores to the bytes of the
 source, with a key of any one recipient, in every failure-free schedule, and in no schedule to
 anything else.
 */
module EndToEnd {
  import opened Base
  import opened Codecs
  import opened Text
  import opened Config
  import Keys = Recipients
  import Sig = Signing
  import P = Pipeline
  import R = RestorePipeline
  import U = Upload
  import Run
  import Restore

  /** The restoring side: the object as it is downloaded, and the decoders for its layers. */
  datatype Reader = Reader(script: seq<Bytes>, tail: P.Tail, unseal: Codec, decrypt: Codec)

  function PlanOf(e: BackupEntry, rd: Reader): P.Plan {
    P.Plan(rd.script, rd.tail, e.seal, if e.seal then rd.unseal else rd.decrypt, rd.decrypt, 0)
  }

  /** The decoders keep their contract and undo the encoders of the backup. */
  ghost predicate Matches(e: BackupEntry, w: Run.World, rd: Reader) {
    && rd.decrypt.Valid() && Inverse(w.encrypt, rd.decrypt)
    && (e.seal ==> rd.unseal.Valid() && Inverse(w.seal, rd.unseal))
  }

  /** Hashes are printed as non-empty strings without surrounding space. */
  ghost predicate HashPrints(hexSha: Bytes -> string) {
    forall b: Bytes :: hexSha(b) != "" && Trimmed(hexSha(b))
  }

  /** Line m of the identity file is a secret key of configured recipient k. */
  ghost predicate HoldsKey(lib: Keys.KeyLib, recipient: string, k: nat, identity: string, m: nat) {
    var lines := Keys.RecipientLines(recipient);
    var file := Split(identity, '\n');
    && k < |lines| && Keys.AllParse(lib, lines)
    && Keys.SecretsParse(lib, file, |file|) && m < |file| && Keys.SecretLine(lib, Trim(file[m]))
    && Keys.SecretPrint(lib, Trim(file[m])) == Keys.LinePrint(lib, lines[k])
  }

  /** The restore is asked for this object, with what the documentation says it needs. */
  ghost predicate ProperRequest(
    env: Run.Env, e: BackupEntry, obj: U.Object, r: Restore.Request, k: nat, m: nat, line: string)
  {
    && r.key == e.DerivedKey(env.ns) && r.head == Restore.HeadOk(obj.metadata)
    && r.keyLib == env.keyLib && r.signLib == env.signLib && r.hexSha == env.hexSha
    && r.identityPath != "" && r.identity.Some? && HoldsKey(env.keyLib, env.recipient, k, r.identity.value, m)
    && (e.seal ==> r.passphrase != "")
    && (r.signers != [] ==> env.hostKey != "" && env.signLib.Pair(env.hostKey, line) && line in r.signers)
  }

  lemma MetadataReads(sha: string, createdAt: string, prints: string, signature: string)
    ensures var m := Run.Metadata(sha, createdAt, prints, signature);
      && Sig.Get(m, Sig.SHA_KEY) == sha && Sig.Get(m, Sig.CREATED_KEY) == createdAt
      && Sig.Get(m, Sig.RECIPIENT_KEY) == prints && Sig.Get(m, Sig.SIGNATURE_KEY) == signature
  {
    assert |Sig.SHA_KEY| == 16 && |Sig.CREATED_KEY| == 20 && |Sig.RECIPIENT_KEY| == 22 && |Sig.SIGNATURE_KEY| == 19;
  }

  /** Both prechecks pass, and the recorded hash is the hash of the ciphertext. */
  lemma PrechecksPass(
    env: Run.Env, e: BackupEntry, w: Run.World, obj: U.Object, r: Restore.Request, k: nat, m: nat, line: string)
    requires env.keyLib.Valid() && HashPrints(env.hexSha)
    requires Run.Genuine(env, e, w, obj.bytes, obj.metadata) && ProperRequest(env, e, obj, r, k, m, line)
    ensures Restore.PrecheckOk(r) && Restore.Recorded(r) == env.hexSha(obj.bytes)
  {
    var sha := env.hexSha(obj.bytes);
    var lines := Keys.RecipientLines(env.recipient);
    MetadataReads(sha, w.createdAt, Run.Prints(env).value, Run.Signature(env, sha).value);
    TrimFixes(sha);
    Keys.OwnRecipientPasses(env.keyLib, lines, k, r.identity.value, m);
    if r.signers != [] {
      Sig.OwnSignaturePasses(env.signLib, env.hostKey, line, obj.metadata, sha, r.signers);
    }
  }

  /** The layers come off in the opposite order in which they were put on. */
  lemma LayersUndone(env: Run.Env, e: BackupEntry, w: Run.World, rd: Reader, bytes: Bytes)
    requires Matches(e, w, rd)
    requires var plan := Run.PlanOf(env, e, w); plan.Through(plan.Total()) == Some(bytes)
    ensures PlanOf(e, rd).Through(bytes) == Some(Concat(w.script))
  {
    var source := Concat(w.script);
    assert w.encrypt.final(source).Some?;
    if e.seal {
      var mid := w.encrypt.final(source).value;
      assert w.seal.final(mid).Some?;
    }
  }

  /**
   Whatever happens on the way, a restore of a genuine object that returns nil has produced exactly the
   bytes of the source.
   */
  lemma NilMeansSource(
    env: Run.Env, e: BackupEntry, w: Run.World, obj: U.Object, r: Restore.Request, rd: Reader, acts: seq<R.Action>)
    requires Run.Genuine(env, e, w, obj.bytes, obj.metadata) && Matches(e, w, rd)
    requires Concat(rd.script) == obj.bytes
    requires Restore.ReturnsNil(r, PlanOf(e, rd), acts)
    ensures R.After(Restore.JobOf(r, PlanOf(e, rd)), R.Init(Restore.JobOf(r, PlanOf(e, rd))), acts).core.spool.out
      == Concat(w.script)
  {
    Restore.NilIsTrustworthy(r, PlanOf(e, rd), acts);
    LayersUndone(env, e, w, rd, obj.bytes);
  }

  /**
   The round trip.  For a result that a receipt marks as a success, every failure-free restore of the
   stored object that runs to its end, in any interleaving and with any chunking of the download,
   returns nil and produces exactly the bytes of the source.
   */
  lemma RoundTrip(
    env: Run.Env, e: BackupEntry, w: Run.World, store: U.Store, result: U.RemoteResult,
    r: Restore.Request, rd: Reader, k: nat, m: nat, line: string, acts: seq<R.Action>)
    requires env.keyLib.Valid() && HashPrints(env.hexSha) && Ident(env.ns) && Ident(e.objectName)
    requires result.status == U.Success && Run.TrueResult(env, e, w, store, result)
    requires ProperRequest(env, e, store[(result.remote, result.key)], r, k, m, line)
    requires Matches(e, w, rd)
    requires Concat(rd.script) == store[(result.remote, result.key)].bytes && rd.tail == P.Ends(P.NoErr)
    requires var job := Restore.JobOf(r, PlanOf(e, rd));
      && R.Runs(job, R.Init(job), acts) && R.BenignRun(job, R.Init(job), acts)
      && R.After(job, R.Init(job), acts).main.Done?
    ensures Restore.ReturnsNil(r, PlanOf(e, rd), acts)
    ensures var job := Restore.JobOf(r, PlanOf(e, rd));
      R.After(job, R.Init(job), acts).core.spool.out == Concat(w.script) != []
  {
    var obj := store[(result.remote, result.key)];
    var plan := PlanOf(e, rd);
    var job := Restore.JobOf(r, plan);
    DerivedKeyRestores(e, env.ns);
    PrechecksPass(env, e, w, obj, r, k, m, line);
    LayersUndone(env, e, w, rd, obj.bytes);
    assert R.Accepts(job);
    R.RefinesSequential(job, acts);
    NilMeansSource(env, e, w, obj, r, rd, acts);
  }
}

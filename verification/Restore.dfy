/** streamDecrypt as a whole, and Restore around it: a temporary file that is renamed on success. */
module Restore {
  import opened Base
  import opened Text
  import Config
  import Keys = Recipients
  import Sig = Signing
  import P = Pipeline
  import R = RestorePipeline

  /** A HEAD request fails, answers with nothing, or answers with the object's metadata. */
  datatype Head = HeadFails | HeadEmpty | HeadOk(metadata: Sig.Metadata)

  /** The contents of the identity file, if it can be used, and the libraries the call relies on. */
  datatype Request = Request(
    key: string, identityPath: string, identity: Option<string>, passphrase: string, signers: seq<string>,
    head: Head, keyLib: Keys.KeyLib, signLib: Sig.SignLib, hexSha: Bytes -> string)

  function Recorded(r: Request): string {
    if r.head.HeadOk? then Trim(Sig.Get(r.head.metadata, Sig.SHA_KEY)) else ""
  }

  ghost predicate PrecheckOk(r: Request) {
    r.identityPath != "" &&
    if r.head.HeadOk? then
      && Keys.PrecheckPasses(r.keyLib, Sig.Get(r.head.metadata, Sig.RECIPIENT_KEY), r.identity)
      && Sig.SignaturePasses(r.signLib, r.head.metadata, r.signers)
    else r.signers == []
  }

  /** Everything streamDecrypt does before the download starts; the result is the recorded hash. */
  method Precheck(r: Request) returns (recorded: Option<string>)
    ensures recorded == if PrecheckOk(r) then Some(Recorded(r)) else None
  {
    if r.identityPath == "" {
      return None;
    }
    match r.head {
      case HeadFails =>
        if |r.signers| > 0 {
          return None;
        }
      case HeadEmpty =>
        if |r.signers| > 0 {
          return None;
        }
      case HeadOk(m) =>
        var ok := Keys.PrecheckRecipient(r.keyLib, Sig.Get(m, Sig.RECIPIENT_KEY), r.identity);
        if !ok {
          return None;
        }
        ok := Sig.PrecheckSignature(r.signLib, m, r.signers);
        if !ok {
          return None;
        }
    }
    return Some(Recorded(r));
  }

  /** The download and decryption that follow: `plan.script` is the object as it arrives. */
  function JobOf(r: Request, plan: P.Plan): R.Job {
    R.Job(plan, r.passphrase != "", Recorded(r), r.hexSha)
  }

  /** streamDecrypt returns nil under this schedule. */
  ghost predicate ReturnsNil(r: Request, plan: P.Plan, acts: seq<R.Action>) {
    && plan.Valid() && plan.limit == 0 && plan.sealed == Config.IsSealed(r.key)
    && PrecheckOk(r)
    && R.Runs(JobOf(r, plan), R.Init(JobOf(r, plan)), acts)
    && R.After(JobOf(r, plan), R.Init(JobOf(r, plan)), acts).main == R.Done(true)
  }

  /**
   nil means: the destination holds the decryption of the entire downloaded object, a recorded hash is
   the hash of exactly those bytes, and when signers are configured the object had metadata with a hash
   and one of them signed that hash.
   */
  lemma NilIsTrustworthy(r: Request, plan: P.Plan, acts: seq<R.Action>)
    requires ReturnsNil(r, plan, acts)
    ensures var c := R.After(JobOf(r, plan), R.Init(JobOf(r, plan)), acts).core;
      && plan.Through(plan.Total()) == Some(c.spool.out)
      && plan.tail == P.Ends(P.NoErr)
      && (Recorded(r) != "" ==> EqualFold(r.hexSha(plan.Total()), Recorded(r)))
    ensures r.signers != [] ==>
      && r.head.HeadOk? && Recorded(r) != ""
      && EqualFold(r.hexSha(plan.Total()), Recorded(r))
      && Sig.Verified(r.signLib, Recorded(r), Trim(Sig.Get(r.head.metadata, Sig.SIGNATURE_KEY)), r.signers)
  {
    R.SuccessIsComplete(JobOf(r, plan), acts);
  }

  /**
   When streamDecrypt returns nil, for every failure-free schedule that ends: the prechecks pass, a sealed
   object meets a passphrase, the download ends well and decodes, and the recorded hash, if there is one,
   is the hash of the download.
   */
  lemma ReturnsNilIff(r: Request, plan: P.Plan, acts: seq<R.Action>)
    requires plan.Valid() && plan.limit == 0 && plan.sealed == Config.IsSealed(r.key)
    requires R.Runs(JobOf(r, plan), R.Init(JobOf(r, plan)), acts) && R.BenignRun(JobOf(r, plan), R.Init(JobOf(r, plan)), acts)
    requires R.After(JobOf(r, plan), R.Init(JobOf(r, plan)), acts).main.Done?
    ensures ReturnsNil(r, plan, acts) <==>
      && PrecheckOk(r) && (plan.sealed ==> r.passphrase != "")
      && plan.tail == P.Ends(P.NoErr) && plan.Through(plan.Total()).Some?
      && (r.head.HeadOk? && Trim(Sig.Get(r.head.metadata, Sig.SHA_KEY)) != "" ==>
            EqualFold(r.hexSha(plan.Total()), Trim(Sig.Get(r.head.metadata, Sig.SHA_KEY))))
  {
    R.RefinesSequential(JobOf(r, plan), acts);
  }

  /** Nothing is known about the object: no metadata, or metadata without a hash, and no signer to satisfy. */
  ghost predicate Unrecorded(r: Request) {
    && r.identityPath != "" && r.signers == []
    && match r.head
       case HeadFails => true
       case HeadEmpty => true
       case HeadOk(m) => Trim(Sig.Get(m, Sig.SHA_KEY)) == "" && Keys.PrecheckPasses(r.keyLib, Sig.Get(m, Sig.RECIPIENT_KEY), r.identity)
  }

  /** An object without a recorded hash restores as well: the comparison is skipped, not failed. */
  lemma UnrecordedRestores(r: Request, plan: P.Plan, acts: seq<R.Action>)
    requires plan.Valid() && plan.limit == 0 && plan.sealed == Config.IsSealed(r.key)
    requires R.Runs(JobOf(r, plan), R.Init(JobOf(r, plan)), acts) && R.BenignRun(JobOf(r, plan), R.Init(JobOf(r, plan)), acts)
    requires R.After(JobOf(r, plan), R.Init(JobOf(r, plan)), acts).main.Done?
    requires Unrecorded(r) && (plan.sealed ==> r.passphrase != "")
    requires plan.tail == P.Ends(P.NoErr) && plan.Through(plan.Total()).Some?
    ensures ReturnsNil(r, plan, acts)
    ensures Some(R.After(JobOf(r, plan), R.Init(JobOf(r, plan)), acts).core.spool.out) == plan.Through(plan.Total())
  {
    ReturnsNilIff(r, plan, acts);
    NilIsTrustworthy(r, plan, acts);
  }

  // ---- The file protocol ----
  // ---- The file protocol ----

  /** A file system whose every state is remembered. */
  class Files {
    var files: map<string, Bytes>
    ghost var past: seq<map<string, Bytes>>

    constructor (files: map<string, Bytes>)
      ensures this.files == files && past == []
    {
      this.files, this.past := files, [];
    }

    method Write(path: string, content: Bytes)
      modifies this
      ensures files == old(files)[path := content] && past == old(past) + [files]
    {
      files := files[path := content];
      past := past + [files];
    }

    method Remove(path: string)
      modifies this
      ensures files == old(files) - {path} && past == old(past) + [files]
    {
      files := files - {path};
      past := past + [files];
    }

    /** Atomic: there is no state in which the target is neither the old nor the new file. */
    method Rename(from: string, to: string)
      requires from in files
      modifies this
      ensures files == (old(files) - {from})[to := old(files)[from]] && past == old(past) + [files]
    {
      files := (files - {from})[to := files[from]];
      past := past + [files];
    }
  }

  /** Which system calls fail. */
  datatype Faults = Faults(stat: bool, mkdir: bool, create: bool, chmod: bool, close: bool, rename: bool)

  /** In state now, `out` is as it was before or holds the complete text, and no third file has changed. */
  predicate Safe(before: map<string, Bytes>, now: map<string, Bytes>, out: string, tmp: string, full: Option<Bytes>) {
    && (forall p <- before :: p != out && p != tmp ==> p in now && now[p] == before[p])
    && (forall p <- now :: p in before || p == out || p == tmp)
    && ((out in before && out in now && now[out] == before[out]) || (out !in before && out !in now) ||
        (full.Some? && out in now && now[out] == full.value))
  }

  /** Every remembered state from number `from` on is safe. */
  ghost predicate AllSafe(
    before: map<string, Bytes>, past: seq<map<string, Bytes>>, from: nat, out: string, tmp: string,
    full: Option<Bytes>)
  {
    forall i :: from <= i < |past| ==> Safe(before, past[i], out, tmp, full)
  }

  /** The successive contents of the destination while the pipeline runs. */
  function Contents(job: R.Job, s: R.State, acts: seq<R.Action>): (cs: seq<Bytes>)
    requires R.Runs(job, s, acts)
    ensures |cs| == |acts| + 1 && cs[|acts|] == R.After(job, s, acts).core.spool.out
    decreases |acts|
  {
    [s.core.spool.out] + if acts == [] then [] else Contents(job, R.Apply(job, s, acts[0]), acts[1..])
  }

  /** What one call of streamDecrypt does to its destination, and whether it returns nil. */
  datatype Stream = Stream(contents: seq<Bytes>, ok: bool)

  /** The call under a complete schedule; nothing is written when the precheck fails. */
  method StreamDecrypt(r: Request, plan: P.Plan, acts: seq<R.Action>) returns (st: Stream)
    requires plan.Valid() && plan.limit == 0 && plan.sealed == Config.IsSealed(r.key)
    requires R.Runs(JobOf(r, plan), R.Init(JobOf(r, plan)), acts)
    requires R.After(JobOf(r, plan), R.Init(JobOf(r, plan)), acts).main.Done?
    ensures st.ok <==> ReturnsNil(r, plan, acts)
    ensures st.contents == if PrecheckOk(r) then Contents(JobOf(r, plan), R.Init(JobOf(r, plan)), acts) else []
    ensures st.ok ==> st.contents != [] && plan.Through(plan.Total()) == Some(st.contents[|st.contents| - 1])
  {
    var recorded := Precheck(r);
    if recorded.None? {
      return Stream([], false);
    }
    var job := JobOf(r, plan);
    st := Stream(Contents(job, R.Init(job), acts), R.After(job, R.Init(job), acts).main.ok);
    if st.ok {
      NilIsTrustworthy(r, plan, acts);
    }
  }

  /** The temporary file goes through the contents of the stream; every state is safe. */
  method WriteThrough(fs: Files, contents: seq<Bytes>, ghost before: map<string, Bytes>, out: string, tmp: string,
                      ghost full: Option<Bytes>)
    requires tmp !in before && tmp != out && tmp in fs.files && fs.files == before[tmp := fs.files[tmp]]
    modifies fs
    ensures tmp in fs.files && fs.files == before[tmp := fs.files[tmp]]
    ensures contents != [] ==> fs.files[tmp] == contents[|contents| - 1]
    ensures old(fs.past) <= fs.past && AllSafe(before, fs.past, |old(fs.past)|, out, tmp, full)
  {
    for i := 0 to |contents|
      invariant tmp in fs.files && fs.files == before[tmp := fs.files[tmp]]
      invariant i > 0 ==> fs.files[tmp] == contents[i - 1]
      invariant old(fs.past) <= fs.past && AllSafe(before, fs.past, |old(fs.past)|, out, tmp, full)
    {
      fs.Write(tmp, contents[i]);
    }
  }

  /** The deferred removal on a failure exit. */
  method DropTemp(fs: Files, ghost before: map<string, Bytes>, tmp: string)
    requires tmp !in before && tmp in fs.files && fs.files == before[tmp := fs.files[tmp]]
    modifies fs
    ensures fs.files == before && fs.past == old(fs.past) + [before]
  {
    fs.Remove(tmp);
    assert fs.files == before;
  }

  /** The rename, and the deferred removal that then finds nothing. */
  method Commit(fs: Files, ghost before: map<string, Bytes>, out: string, tmp: string)
    requires tmp !in before && tmp != out && tmp in fs.files && fs.files == before[tmp := fs.files[tmp]]
    modifies fs
    ensures var done := before[out := old(fs.files)[tmp]];
      fs.files == done && fs.past == old(fs.past) + [done, done]
  {
    fs.Rename(tmp, out);
    assert fs.files == before[out := old(fs.files)[tmp]];
    fs.Remove(tmp);
    assert fs.files == before[out := old(fs.files)[tmp]];
  }

  /**
   At every step of Restore, each failure exit included, the output path holds its previous content or
   the complete text of a stream that returned nil; on return the temporary file is gone; without force
   an output seen by the check is never replaced.  The temporary name is fresh and nothing else writes
   these files.
   */
  method RestoreFile(fs: Files, st: Stream, identityPath: string, out: string, tmp: string, force: bool, faults: Faults)
    returns (ok: bool)
    requires st.ok ==> st.contents != []
    requires tmp !in fs.files && tmp != out
    modifies fs
    ensures old(fs.past) <= fs.past
    ensures AllSafe(old(fs.files), fs.past, |old(fs.past)|, out, tmp, FullText(st))
    ensures ok <==>
      && identityPath != "" && (force || faults.stat || out !in old(fs.files))
      && !faults.mkdir && !faults.create && !faults.chmod && !faults.close && !faults.rename
      && st.ok
    ensures fs.files == if ok then old(fs.files)[out := FullText(st).value] else old(fs.files)
  {
    if identityPath == "" {
      return false;
    }
    if !force {
      if !faults.stat && out in fs.files {
        return false;
      }
    }
    if faults.mkdir || faults.create {
      return false;
    }
    ghost var before := fs.files;
    fs.Write(tmp, []);
    if faults.chmod {
      DropTemp(fs, before, tmp);
      return false;
    }
    WriteThrough(fs, st.contents, before, out, tmp, FullText(st));
    if !st.ok || faults.close || faults.rename {
      DropTemp(fs, before, tmp);
      return false;
    }
    Commit(fs, before, out, tmp);
    ok := true;
  }

  function FullText(st: Stream): Option<Bytes> {
    if st.ok && st.contents != [] then Some(st.contents[|st.contents| - 1]) else None
  }

  /** The two together: what Restore leaves behind is the verified plaintext or what was there before. */
  method RestoreObject(
    fs: Files, r: Request, plan: P.Plan, acts: seq<R.Action>, out: string, tmp: string, force: bool, faults: Faults)
    returns (ok: bool)
    requires plan.Valid() && plan.limit == 0 && plan.sealed == Config.IsSealed(r.key)
    requires R.Runs(JobOf(r, plan), R.Init(JobOf(r, plan)), acts)
    requires R.After(JobOf(r, plan), R.Init(JobOf(r, plan)), acts).main.Done?
    requires tmp !in fs.files && tmp != out
    modifies fs
    ensures old(fs.past) <= fs.past
    ensures AllSafe(old(fs.files), fs.past, |old(fs.past)|, out, tmp,
                    if ReturnsNil(r, plan, acts) then plan.Through(plan.Total()) else None)
    ensures ok ==> ReturnsNil(r, plan, acts) && out in fs.files && plan.Through(plan.Total()) == Some(fs.files[out])
    ensures fs.files == if ok then old(fs.files)[out := fs.files[out]] else old(fs.files)
    ensures !force && !faults.stat && out in old(fs.files) ==> !ok
  {
    var st := StreamDecrypt(r, plan, acts);
    ok := RestoreFile(fs, st, r.identityPath, out, tmp, force, faults);
  }
}

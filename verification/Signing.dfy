/** Signatures over the ciphertext hash: verification, the fail-closed precheck, and the trusted keys. */
module Signing {
  import opened Base
  import opened Text
  import Validate

  const SIGNATURE_SIZE: nat := 64
  const SHA_KEY := "x-rbackup-sha256"
  const CREATED_KEY := "x-rbackup-created-at"
  const RECIPIENT_KEY := "x-rbackup-recipient-fp"
  const SIGNATURE_KEY := "x-rbackup-signature"

  type Metadata = map<string, string>

  /** A Go map lookup: absent keys read as "". */
  function Get(m: Metadata, key: string): string {
    if key in m then m[key] else ""
  }

  /**
   The signature library: base64 decoding, parsing an authorized_keys line to an Ed25519 public key,
   checking a signature of a message, and signing a message with a host key.
   */
  datatype SignLib = SignLib(
    decode: string -> Option<Bytes>, parse: string -> Option<string>, check: (string, string, Bytes) -> bool,
    sign: (string, string) -> Option<string>)
  {
    /** What the host key signs, the public line verifies. */
    ghost predicate Pair(hostKey: string, publicLine: string) {
      parse(publicLine).Some? &&
      forall m: string :: sign(hostKey, m).Some? ==>
        var s := sign(hostKey, m).value;
        s != "" && Trimmed(s) && decode(s).Some? && |decode(s).value| == SIGNATURE_SIZE &&
        check(parse(publicLine).value, m, decode(s).value)
    }
  }

  /** One line accepts the signature. */
  predicate Accepts(lib: SignLib, line: string, sha: string, sig: Bytes) {
    lib.parse(line).Some? && lib.check(lib.parse(line).value, sha, sig)
  }

  predicate Verified(lib: SignLib, sha: string, signature: string, signers: seq<string>) {
    var sig := lib.decode(signature);
    sig.Some? && |sig.value| == 64 &&
    exists i :: 0 <= i < |signers| && Accepts(lib, signers[i], sha, sig.value)
  }

  method VerifySignature(lib: SignLib, sha: string, signature: string, signers: seq<string>) returns (ok: bool)
    ensures ok <==> Verified(lib, sha, signature, signers)
  {
    var sig := lib.decode(signature);
    if sig.None? || |sig.value| != SIGNATURE_SIZE {
      return false;
    }
    for i := 0 to |signers|
      invariant forall k :: 0 <= k < i ==> !Accepts(lib, signers[k], sha, sig.value)
    {
      var pub := lib.parse(signers[i]);
      if pub.None? {
        continue;
      }
      if lib.check(pub.value, sha, sig.value) {
        assert Accepts(lib, signers[i], sha, sig.value);
        return true;
      }
    }
    return false;
  }

  /** With no signers there is nothing to check; with signers everything must be present and verify. */
  predicate SignaturePasses(lib: SignLib, m: Metadata, signers: seq<string>) {
    signers == [] ||
    (Trim(Get(m, SIGNATURE_KEY)) != "" && Trim(Get(m, SHA_KEY)) != "" &&
     Verified(lib, Trim(Get(m, SHA_KEY)), Trim(Get(m, SIGNATURE_KEY)), signers))
  }

  method PrecheckSignature(lib: SignLib, m: Metadata, signers: seq<string>) returns (ok: bool)
    ensures ok <==> SignaturePasses(lib, m, signers)
  {
    if |signers| == 0 {
      return true;
    }
    var sig := Trim(Get(m, SIGNATURE_KEY));
    if sig == "" {
      return false;
    }
    var sha := Trim(Get(m, SHA_KEY));
    if sha == "" {
      return false;
    }
    ok := VerifySignature(lib, sha, sig, signers);
  }

  // ---- Which public keys are trusted ----

  /**
   The allowed-signers file: not configured, unreadable, or lines with a known_hosts parser that yields
   an error, a key of another type, or the authorized_keys form of an Ed25519 key.
   */
  datatype HostLine = BadLine | OtherType | Ed25519(key: string)

  datatype SignersFile = NotSet | Unreadable | Lines(lines: seq<string>, parse: string -> HostLine)

  predicate FileLine(line: string) {
    Trim(line) != "" && !HasPrefix(Trim(line), "#")
  }

  predicate FileOk(f: SignersFile) {
    match f
    case NotSet => true
    case Unreadable => false
    case Lines(lines, parse) => forall i :: 0 <= i < |lines| && FileLine(lines[i]) ==> !parse(Trim(lines[i])).BadLine?
  }

  ghost function FileKeys(f: SignersFile, n: nat): set<string>
    requires f.Lines? && n <= |f.lines|
  {
    set i | 0 <= i < n && FileLine(f.lines[i]) && f.parse(Trim(f.lines[i])).Ed25519? :: f.parse(Trim(f.lines[i])).key
  }

  ghost function Configured(inline: seq<string>, f: SignersFile): set<string> {
    (set k | k in Validate.NonBlank(inline)) + (if f.Lines? then FileKeys(f, |f.lines|) else {})
  }

  /** xs lists the elements of s, each once. */
  ghost predicate Enumerates(xs: seq<string>, s: set<string>) {
    Validate.Distinct(xs) && forall x :: x in xs <==> x in s
  }

  predicate FallsBack(f: SignersFile, hostKey: string, hostPub: Option<string>) {
    f.NotSet? && hostKey != "" && hostPub.Some? && Trim(hostPub.value) != ""
  }

  /** The trusted keys: what is configured, or the host's own public key. */
  ghost predicate Resolved(
    inline: seq<string>, f: SignersFile, hostKey: string, hostPub: Option<string>, signers: seq<string>)
  {
    if Configured(inline, f) == {} && FallsBack(f, hostKey, hostPub) then signers == [Trim(hostPub.value)]
    else Enumerates(signers, Configured(inline, f))
  }

  /**
   When verification is off: exactly when no key is configured and the fallback gives none.  A file
   that is configured but lists no Ed25519 key is such a case, since it switches the fallback off.
   */
  lemma NoSignersIff(
    inline: seq<string>, f: SignersFile, hostKey: string, hostPub: Option<string>, signers: seq<string>)
    requires Resolved(inline, f, hostKey, hostPub, signers)
    ensures signers == [] <==>
      && Configured(inline, f) == {}
      && !(f.NotSet? && hostKey != "" && hostPub.Some? && Trim(hostPub.value) != "")
  {
    assert signers != [] ==> signers[0] in signers;
    if Configured(inline, f) != {} {
      var x :| x in Configured(inline, f);
      assert x in signers;
    }
  }

  /** With neither inline keys nor a file, exactly the host's own key is trusted, if there is one. */
  lemma OwnKeyIsFallback(
    inline: seq<string>, hostKey: string, hostPub: Option<string>, signers: seq<string>)
    requires Resolved(inline, NotSet, hostKey, hostPub, signers) && Validate.NonBlank(inline) == []
    ensures hostKey != "" && hostPub.Some? && Trim(hostPub.value) != "" ==> signers == [Trim(hostPub.value)]
    ensures !(hostKey != "" && hostPub.Some? && Trim(hostPub.value) != "") ==> signers == []
  {
    NoSignersIff(inline, NotSet, hostKey, hostPub, signers);
    assert Configured(inline, NotSet) == {};
  }

  /** The host's own key is not trusted by way of the fallback once any key or any file is configured. */
  lemma NoFallback(
    inline: seq<string>, f: SignersFile, hostKey: string, hostPub: Option<string>, signers: seq<string>, k: string)
    requires Resolved(inline, f, hostKey, hostPub, signers) && (Configured(inline, f) != {} || !f.NotSet?)
    ensures k in signers <==> k in Configured(inline, f)
  {
  }

  method AddKey(result: seq<string>, key: string) returns (r: seq<string>)
    requires Validate.Distinct(result)
    ensures Validate.Distinct(r) && (forall x :: x in r <==> x in result || x == key)
    ensures result <= r
  {
    r := result;
    if key !in result {
      r := result + [key];
    }
  }

  method InlineKeys(inline: seq<string>) returns (r: seq<string>)
    ensures Enumerates(r, set k | k in Validate.NonBlank(inline))
  {
    r := [];
    for i := 0 to |inline|
      invariant Enumerates(r, set k | k in Validate.NonBlankUpTo(inline, i))
    {
      var key := Trim(inline[i]);
      if key != "" {
        r := AddKey(r, key);
      }
    }
  }

  /** The keys of the file, appended to the inline keys, each once; an unreadable file or a bad line is an error. */
  method AddFileKeys(inline: seq<string>, f: SignersFile) returns (r: Option<seq<string>>)
    requires Validate.Distinct(inline)
    ensures r.Some? <==> FileOk(f)
    ensures r.Some? ==> inline <= r.value
    ensures r.Some? ==>
      Enumerates(r.value, (set k | k in inline) + (if f.Lines? then FileKeys(f, |f.lines|) else {}))
  {
    var result := inline;
    ghost var own := set k | k in inline;
    if f.Unreadable? {
      return None;
    }
    if f.Lines? {
      for i := 0 to |f.lines|
        invariant inline <= result && Enumerates(result, own + FileKeys(f, i))
        invariant forall k :: 0 <= k < i && FileLine(f.lines[k]) ==> !f.parse(Trim(f.lines[k])).BadLine?
      {
        var line := Trim(f.lines[i]);
        assert FileKeys(f, i + 1) == FileKeys(f, i) +
          if FileLine(f.lines[i]) && f.parse(line).Ed25519? then {f.parse(line).key} else {};
        if line == "" || HasPrefix(line, "#") {
          continue;
        }
        match f.parse(line)
        case BadLine => return None;
        case OtherType =>
        case Ed25519(key) => result := AddKey(result, key);
      }
    }
    return Some(result);
  }

  /**
   ResolveAllowedSigners: inline keys merged with the Ed25519 keys of the file, each once; only when
   neither gives a key, no file is configured and a host key is, the host's own public key if readable.
   */
  method ResolveAllowedSigners(inline: seq<string>, f: SignersFile, hostKey: string, hostPub: Option<string>)
    returns (r: Option<seq<string>>)
    ensures r.Some? <==> FileOk(f)
    ensures r.Some? ==> Resolved(inline, f, hostKey, hostPub, r.value)
  {
    var own := InlineKeys(inline);
    r := AddFileKeys(own, f);
    if r.None? {
      return;
    }
    assert Enumerates(r.value, Configured(inline, f)) by {
      assert (set k | k in own) == set k | k in Validate.NonBlank(inline);
    }
    assert |r.value| > 0 ==> r.value[0] in Configured(inline, f);
    if |r.value| == 0 && f.NotSet? && hostKey != "" && hostPub.Some? && Trim(hostPub.value) != "" {
      r := Some([Trim(hostPub.value)]);
    }
  }

  /** A configured file without an Ed25519 line, and no inline key, leaves no trusted key at all. */
  lemma FileWithoutKeysTrustsNothing(f: SignersFile, hostKey: string, hostPub: Option<string>, signers: seq<string>)
    requires f.Lines? && Resolved([], f, hostKey, hostPub, signers)
    requires forall i :: 0 <= i < |f.lines| && FileLine(f.lines[i]) ==> f.parse(Trim(f.lines[i])).OtherType?
    ensures signers == []
  {
    NoSignersIff([], f, hostKey, hostPub, signers);
    assert FileKeys(f, |f.lines|) == {};
  }

  /** A signature made by the host key over the recorded hash passes with the matching public line. */
  lemma OwnSignaturePasses(lib: SignLib, hostKey: string, line: string, m: Metadata, sha: string, signers: seq<string>)
    requires lib.Pair(hostKey, line) && line in signers
    requires sha != "" && Trimmed(sha) && Get(m, SHA_KEY) == sha
    requires lib.sign(hostKey, sha).Some? && Get(m, SIGNATURE_KEY) == lib.sign(hostKey, sha).value
    ensures SignaturePasses(lib, m, signers)
  {
    var s := lib.sign(hostKey, sha).value;
    TrimFixes(sha);
    TrimFixes(s);
    var i :| 0 <= i < |signers| && signers[i] == line;
    assert Accepts(lib, signers[i], sha, lib.decode(s).value);
  }
}

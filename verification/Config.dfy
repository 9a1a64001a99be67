/** The configuration as the runtime uses it, and the object keys derived from it. */
module Config {
  import opened Base
  import opened Text

  datatype BackupEntry = BackupEntry(
    objectName: string, cmd: string, file: string, dir: string,
    seal: bool, manualOnly: bool, remotes: seq<string>)
  {
    function Suffix(): string {
      if seal then ".age2" else ".age"
    }

    function DerivedKey(ns: string): string {
      ns + "/" + objectName + Suffix()
    }

    function ResolvedRemotes(defaults: seq<string>): seq<string> {
      if |remotes| > 0 then remotes else defaults
    }
  }

  datatype Remote = Remote(
    name: string, kind: string, bucket: string, accessKeyId: string, secretAccessKey: string,
    awsProfile: string, credentialSource: string)

  datatype Settings = Settings(
    ns: string, maxBackupBytes: int, minDiskFreeBytes: int, remoteRetries: int, lockWait: nat)

  datatype Notifications = Notifications(
    successUrl: string, failureUrl: string, headers: map<string, string>)

  /** The parsed configuration; validation and secret resolution update it in place. */
  class Config {
    var recipient: string
    var hostKey: string
    var allowedSigners: seq<string>
    var settings: Settings
    var remotes: seq<Remote>
    var notifications: Notifications
    var defaults: seq<string>
    var backups: map<string, BackupEntry>

    constructor (recipient: string, hostKey: string, allowedSigners: seq<string>, settings: Settings,
                 remotes: seq<Remote>, notifications: Notifications, defaults: seq<string>,
                 backups: map<string, BackupEntry>)
      ensures this.recipient == recipient && this.hostKey == hostKey && this.allowedSigners == allowedSigners
      ensures this.settings == settings && this.remotes == remotes && this.notifications == notifications
      ensures this.defaults == defaults && this.backups == backups
    {
      this.recipient, this.hostKey, this.allowedSigners := recipient, hostKey, allowedSigners;
      this.settings, this.remotes, this.notifications := settings, remotes, notifications;
      this.defaults, this.backups := defaults, backups;
    }
  }

  /** FindRemote: the first remote with that name, if any. */
  function FindRemote(remotes: seq<Remote>, name: string): (r: Option<nat>)
    ensures r.Some? ==> r.value < |remotes| && remotes[r.value].name == name
    ensures r.Some? ==> forall i :: 0 <= i < r.value ==> remotes[i].name != name
    ensures r.None? ==> forall i :: 0 <= i < |remotes| ==> remotes[i].name != name
  {
    FindRemoteFrom(remotes, name, 0)
  }

  function FindRemoteFrom(remotes: seq<Remote>, name: string, from: nat): (r: Option<nat>)
    requires from <= |remotes|
    ensures r.Some? ==> from <= r.value < |remotes| && remotes[r.value].name == name
    ensures r.Some? ==> forall i :: from <= i < r.value ==> remotes[i].name != name
    ensures r.None? ==> forall i :: from <= i < |remotes| ==> remotes[i].name != name
    decreases |remotes| - from
  {
    if from == |remotes| then None
    else if remotes[from].name == name then Some(from)
    else FindRemoteFrom(remotes, name, from + 1)
  }

  // ---- Names and keys ----

  predicate IdentChar(c: char) {
    'A' <= c <= 'Z' || 'a' <= c <= 'z' || '0' <= c <= '9' || c == '.' || c == '_' || c == '-'
  }

  /** The pattern ^[A-Za-z0-9._-]+$. */
  predicate Ident(s: string) {
    s != [] && forall i :: 0 <= i < |s| ==> IdentChar(s[i])
  }

  /** The alphabet by code points: digits, letters, and the three marks. */
  lemma IdentAlphabet(c: char)
    ensures IdentChar(c) <==>
      var u := c as int; 48 <= u <= 57 || 65 <= u <= 90 || 97 <= u <= 122 || u == 45 || u == 46 || u == 95
  {
  }

  /** An entry's own remotes replace the defaults; the two are never merged. */
  lemma OwnRemotesFirst(e: BackupEntry, defaults: seq<string>)
    ensures e.remotes != [] ==> e.ResolvedRemotes(defaults) == e.remotes
    ensures e.remotes == [] ==> e.ResolvedRemotes(defaults) == defaults
  {
  }

  predicate ObjectNameOk(s: string) {
    Ident(s) && !HasSuffix(s, ".age") && !HasSuffix(s, ".age2")
  }

  /** A key determines the namespace, the object name and the seal flag. */
  lemma KeyInjective(e1: BackupEntry, e2: BackupEntry, ns1: string, ns2: string)
    requires Ident(ns1) && Ident(ns2) && Ident(e1.objectName) && Ident(e2.objectName)
    ensures e1.DerivedKey(ns1) == e2.DerivedKey(ns2) <==>
      ns1 == ns2 && e1.objectName == e2.objectName && e1.seal == e2.seal
  {
    var k1, k2 := e1.DerivedKey(ns1), e2.DerivedKey(ns2);
    if k1 == k2 {
      KeySlash(e1, ns1, |ns1|);
      KeySlash(e2, ns2, |ns1|);
      assert ns1 == k1[..|ns1|] && ns2 == k2[..|ns2|];
      assert k1[|k1| - 1] == (if e1.seal then '2' else 'e');
      assert k2[|k2| - 1] == (if e2.seal then '2' else 'e');
      assert e1.objectName == k1[|ns1| + 1..|k1| - |e1.Suffix()|];
      assert e2.objectName == k2[|ns2| + 1..|k2| - |e2.Suffix()|];
    }
  }

  /** verify.ValidateKey, the rules for an explicit --key. */
  function ValidateKey(key: string): Option<string> {
    var k := Trim(key);
    if k == "" || HasPrefix(k, "/") || Contains(k, "//") then None else Some(k)
  }

  /** Which explicit keys are rejected: blank ones, those with a leading slash or two slashes in a row. */
  lemma ValidateKeyIff(key: string)
    ensures ValidateKey(key).Some? ==> ValidateKey(key) == Some(Trim(key))
    ensures ValidateKey(key).None? <==> Trim(key) == "" || Trim(key)[0] == '/' || DoubleSlash(Trim(key))
  {
    var k := Trim(key);
    forall i: nat | i <= |k| ensures ContainsAt(k, "//", i) <==> i + 1 < |k| && k[i] == k[i + 1] == '/' {
      if i + 1 < |k| {
        assert k[i..i + 2] == [k[i], k[i + 1]];
      }
    }
    if DoubleSlash(k) {
      var i, j :| 0 <= i < j < |k| && j == i + 1 && k[i] == '/' && k[j] == '/';
      assert ContainsAt(k, "//", i);
    }
    if Contains(k, "//") {
      var i: nat :| i <= |k| && ContainsAt(k, "//", i);
      assert k[i] == '/' && k[i + 1] == '/';
      assert DoubleSlash(k);
    }
    assert k != "" ==> (HasPrefix(k, "/") <==> k[0] == '/');
  }

  ghost predicate DoubleSlash(k: string) {
    exists i, j :: 0 <= i < j < |k| && j == i + 1 && k[i] == '/' && k[j] == '/'
  }

  predicate IsSealed(key: string) {
    HasSuffix(key, ".age2")
  }

  /** A key counts as sealed exactly when it ends in ".age2", whatever comes before. */
  lemma IsSealedIff(key: string)
    ensures IsSealed(key) <==> exists p: string :: key == p + ".age2"
  {
    if IsSealed(key) {
      assert key == key[..|key| - 5] + ".age2";
    }
    if p: string :| key == p + ".age2" {
      assert key[|key| - 5..] == ".age2";
    }
  }

  /** Every derived key is accepted unchanged by restore, which then picks the matching layers. */
  lemma DerivedKeyRestores(e: BackupEntry, ns: string)
    requires Ident(ns) && Ident(e.objectName)
    ensures ValidateKey(e.DerivedKey(ns)) == Some(e.DerivedKey(ns))
    ensures IsSealed(e.DerivedKey(ns)) <==> e.seal
    ensures e.DerivedKey(ns) == ns + "/" + e.objectName + if e.seal then ".age2" else ".age"
  {
    var k := e.DerivedKey(ns);
    assert k[0] == ns[0] && !IsSpace(k[0]);
    assert k[|k| - 1] == (if e.seal then '2' else 'e');
    TrimFixes(k);
    forall i: nat | i <= |k| ensures !ContainsAt(k, "//", i) {
      if ContainsAt(k, "//", i) {
        assert k[i..i + 2][0] == k[i] && k[i..i + 2][1] == k[i + 1];
        KeySlash(e, ns, i);
        KeySlash(e, ns, i + 1);
      }
    }
    if e.seal {
      assert k[|k| - 5..] == ".age2";
    }
  }

  /** The only slash of a derived key is the one after the namespace. */
  lemma KeySlash(e: BackupEntry, ns: string, i: nat)
    requires Ident(ns) && Ident(e.objectName) && i < |e.DerivedKey(ns)|
    ensures e.DerivedKey(ns)[i] == '/' <==> i == |ns|
  {
    var k := e.DerivedKey(ns);
    if i < |ns| {
      assert k[i] == ns[i] && IdentChar(ns[i]);
    } else if |ns| < i < |ns| + 1 + |e.objectName| {
      assert k[i] == e.objectName[i - |ns| - 1] && IdentChar(e.objectName[i - |ns| - 1]);
    } else if i > |ns| {
      assert k[i] == e.Suffix()[i - |ns| - 1 - |e.objectName|];
    }
  }
}

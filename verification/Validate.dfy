/**
 Configuration validation.  The loops and the in-place trimming are methods on the configuration
 object; what they accept and what they leave behind is stated on values.  The backup entries are a
 map, visited in whatever order `:|` picks, so the contracts hold for every iteration order.
 */
module Validate {
  import opened Base
  import opened Text
  import opened Config

  /** Library parsers: whether a line is a recipient, and whether a line is an Ed25519 public key. */
  datatype Parsers = Parsers(recipient: string -> bool, signer: string -> bool) {

    /** age.ParseRecipients: the number of recipients of a text, or an error for a bad line or none at all. */
    function Recipients(text: string): Option<nat> {
      var lines := Split(text, '\n');
      if (forall i :: 0 <= i < |lines| ==> Skipped(Scanned(lines[i])) || recipient(Scanned(lines[i])))
         && Counted(lines, |lines|) > 0
      then Some(Counted(lines, |lines|)) else None
    }

    function Counted(lines: seq<string>, n: nat): nat
      requires n <= |lines|
    {
      if n == 0 then 0 else Counted(lines, n - 1) + if Skipped(Scanned(lines[n - 1])) then 0 else 1
    }
  }

  /** A line as bufio.Scanner yields it: without a final carriage return. */
  function Scanned(line: string): string {
    if line != [] && line[|line| - 1] == '\r' then line[..|line| - 1] else line
  }

  /** The parser skips empty lines and comments; it does not trim. */
  predicate Skipped(line: string) {
    line == "" || HasPrefix(line, "#")
  }

  predicate Distinct(xs: seq<string>) {
    forall i, j :: 0 <= i < j < |xs| ==> xs[i] != xs[j]
  }

  function Kept(line: string): seq<string> {
    if Trim(line) == "" then [] else [Trim(line)]
  }

  function NonBlankUpTo(lines: seq<string>, n: nat): seq<string>
    requires n <= |lines|
  {
    if n == 0 then [] else NonBlankUpTo(lines, n - 1) + Kept(lines[n - 1])
  }

  /** The trimmed lines that are not blank. */
  function NonBlank(lines: seq<string>): seq<string> {
    NonBlankUpTo(lines, |lines|)
  }

  // ---- What is accepted ----

  predicate GoodEncryption(p: Parsers, recipient: string) {
    var r := Trim(recipient);
    && r != "" && p.Recipients(r + "\n").Some? && p.Recipients(r + "\n").value > 0
    && Distinct(NonBlank(Split(r, '\n')))
  }

  ghost predicate GoodSigners(p: Parsers, keys: seq<string>) {
    AllOk(p.signer, NonBlank(keys))
  }

  ghost predicate GoodKeys(p: Parsers, recipient: string, signers: seq<string>) {
    GoodEncryption(p, recipient) && GoodSigners(p, signers)
  }

  predicate GoodSettings(s: Settings) {
    Ident(Trim(s.ns)) && s.maxBackupBytes >= 0 && s.minDiskFreeBytes >= 0 && s.remoteRetries >= 0
  }

  function NormalRemote(r: Remote): Remote {
    r.(name := Trim(r.name), kind := Trim(r.kind), bucket := Trim(r.bucket), awsProfile := Trim(r.awsProfile),
       credentialSource := Trim(r.credentialSource))
  }

  /** The rules for one trimmed remote, with exactly one credential method. */
  predicate GoodRemote(r: Remote) {
    && Ident(r.name) && r.kind == "s3" && r.bucket != ""
    && r.credentialSource in {"", "default_chain"}
    && (r.accessKeyId == "" <==> r.secretAccessKey == "")
    && (if r.accessKeyId != "" then r.awsProfile == "" && r.credentialSource == ""
        else (r.awsProfile != "") != (r.credentialSource == "default_chain"))
  }

  function NormalRemotes(rs: seq<Remote>): seq<Remote> {
    seq(|rs|, i requires 0 <= i < |rs| => NormalRemote(rs[i]))
  }

  function Names(rs: seq<Remote>): seq<string> {
    seq(|rs|, i requires 0 <= i < |rs| => rs[i].name)
  }

  /** The first n remotes each follow the rules and have different names. */
  predicate GoodUpTo(rs: seq<Remote>, n: nat)
    requires n <= |rs|
  {
    && (forall i :: 0 <= i < n ==> GoodRemote(rs[i]))
    && (forall i, j :: 0 <= i < j < n ==> rs[i].name != rs[j].name)
  }

  predicate GoodRemotes(rs: seq<Remote>) {
    GoodUpTo(NormalRemotes(rs), |rs|)
  }

  function NormalEntry(e: BackupEntry): BackupEntry {
    e.(objectName := Trim(e.objectName))
  }

  predicate OneSource(e: BackupEntry) {
    (if e.cmd != "" then 1 else 0) + (if e.file != "" then 1 else 0) + (if e.dir != "" then 1 else 0) == 1
  }

  predicate GoodRefs(refs: seq<string>, known: seq<string>) {
    (forall i :: 0 <= i < |refs| ==> refs[i] in known) && Distinct(refs)
  }

  /** The rules for one entry on its own. */
  predicate GoodEntry(id: string, e: BackupEntry, defaults: seq<string>, known: seq<string>) {
    && Ident(Trim(id)) && OneSource(e) && ObjectNameOk(Trim(e.objectName))
    && e.ResolvedRemotes(defaults) != [] && GoodRefs(e.ResolvedRemotes(defaults), known)
  }

  /** The object key an entry will write, once its name is trimmed. */
  function KeyOf(e: BackupEntry, ns: string): string {
    NormalEntry(e).DerivedKey(ns)
  }

  /** Two entries neither share a trimmed id nor write the same object key. */
  predicate Apart(id1: string, id2: string, backups: map<string, BackupEntry>, ns: string)
    requires id1 in backups && id2 in backups
  {
    Trim(id1) != Trim(id2) && KeyOf(backups[id1], ns) != KeyOf(backups[id2], ns)
  }

  predicate GoodBackups(backups: map<string, BackupEntry>, ns: string, defaults: seq<string>, known: seq<string>) {
    && GoodRefs(defaults, known)
    && AllGood(backups, backups.Keys, defaults, known)
    && AllApart(backups, backups.Keys, ns)
  }

  predicate AllGood(backups: map<string, BackupEntry>, ids: set<string>, defaults: seq<string>, known: seq<string>)
    requires ids <= backups.Keys
  {
    forall id <- ids :: GoodEntry(id, backups[id], defaults, known)
  }

  predicate AllApart(backups: map<string, BackupEntry>, ids: set<string>, ns: string)
    requires ids <= backups.Keys
  {
    forall id1 <- ids, id2 <- ids :: id1 != id2 ==> Apart(id1, id2, backups, ns)
  }

  /** The rebuilt map: every entry under its trimmed id, with its object name trimmed. */
  ghost predicate IsNormal(backups: map<string, BackupEntry>, ids: set<string>, rebuilt: map<string, BackupEntry>)
    requires ids <= backups.Keys
  {
    && rebuilt.Keys == TrimmedIds(ids)
    && (forall id <- ids :: Trim(id) in rebuilt && rebuilt[Trim(id)] == NormalEntry(backups[id]))
  }

  ghost function TrimmedIds(ids: set<string>): set<string> {
    set id | id in ids :: Trim(id)
  }

  ghost function Keys(backups: map<string, BackupEntry>, ids: set<string>, ns: string): set<string>
    requires ids <= backups.Keys
  {
    set id | id in ids :: KeyOf(backups[id], ns)
  }

  // ---- The checks ----

  method ValidateEncryption(cfg: Config, p: Parsers) returns (ok: bool)
    modifies cfg`recipient
    ensures cfg.recipient == Trim(old(cfg.recipient))
    ensures ok <==> GoodEncryption(p, old(cfg.recipient))
  {
    cfg.recipient := Trim(cfg.recipient);
    var parsed := p.Recipients(cfg.recipient + "\n");
    if cfg.recipient == "" || parsed.None? || parsed.value == 0 {
      return false;
    }
    ok := NoDuplicateLines(Split(cfg.recipient, '\n'));
  }

  lemma {:induction false} NonBlankPrefix(lines: seq<string>, i: nat, n: nat)
    requires i <= n <= |lines|
    ensures NonBlankUpTo(lines, i) <= NonBlankUpTo(lines, n)
  {
    if i < n {
      NonBlankPrefix(lines, i, n - 1);
    }
  }

  /** Distinct lines that all pass a test. */
  ghost predicate AllOk(test: string -> bool, xs: seq<string>) {
    (forall i :: 0 <= i < |xs| ==> test(xs[i])) && Distinct(xs)
  }

  lemma AllOkSnoc(test: string -> bool, xs: seq<string>, x: string)
    ensures AllOk(test, xs + [x]) <==> AllOk(test, xs) && test(x) && x !in xs
  {
    var ys := xs + [x];
    assert ys[|xs|] == x && forall j :: 0 <= j < |xs| ==> ys[j] == xs[j];
    if AllOk(test, ys) {
      AllOkPrefix(test, xs, ys);
    }
  }

  lemma AllOkPrefix(test: string -> bool, xs: seq<string>, ys: seq<string>)
    requires xs <= ys && AllOk(test, ys)
    ensures AllOk(test, xs)
  {
    assert forall j :: 0 <= j < |xs| ==> ys[j] == xs[j];
  }

  lemma LinesNext(test: string -> bool, lines: seq<string>, i: nat)
    requires i < |lines|
    ensures Trim(lines[i]) == "" ==> NonBlankUpTo(lines, i + 1) == NonBlankUpTo(lines, i)
    ensures Trim(lines[i]) != "" ==> NonBlankUpTo(lines, i + 1) == NonBlankUpTo(lines, i) + [Trim(lines[i])]
    ensures Trim(lines[i]) != "" ==>
      (AllOk(test, NonBlankUpTo(lines, i + 1)) <==>
         AllOk(test, NonBlankUpTo(lines, i)) && test(Trim(lines[i])) && Trim(lines[i]) !in NonBlankUpTo(lines, i))
    ensures AllOk(test, NonBlank(lines)) ==> AllOk(test, NonBlankUpTo(lines, i + 1))
  {
    AllOkSnoc(test, NonBlankUpTo(lines, i), Trim(lines[i]));
    NonBlankPrefix(lines, i + 1, |lines|);
    if AllOk(test, NonBlank(lines)) {
      AllOkPrefix(test, NonBlankUpTo(lines, i + 1), NonBlank(lines));
    }
  }

  method NoDuplicateLines(lines: seq<string>) returns (ok: bool)
    ensures ok <==> Distinct(NonBlank(lines))
  {
    var seen: set<string> := {};
    ghost var any := (l: string) => true;
    for i := 0 to |lines|
      invariant AllOk(any, NonBlankUpTo(lines, i))
      invariant forall l :: l in seen <==> l in NonBlankUpTo(lines, i)
    {
      LinesNext(any, lines, i);
      var line := Trim(lines[i]);
      if line == "" {
        continue;
      }
      if line in seen {
        return false;
      }
      seen := seen + {line};
    }
    ok := true;
  }

  method ValidateSigning(cfg: Config, p: Parsers) returns (ok: bool)
    modifies cfg`allowedSigners
    ensures ok <==> GoodSigners(p, old(cfg.allowedSigners))
    ensures cfg.allowedSigners == if ok then NonBlank(old(cfg.allowedSigners)) else old(cfg.allowedSigners)
  {
    var keys := cfg.allowedSigners;
    var seen: set<string> := {};
    var validated: seq<string> := [];
    for i := 0 to |keys|
      invariant cfg.allowedSigners == keys
      invariant validated == NonBlankUpTo(keys, i) && AllOk(p.signer, validated)
      invariant forall k :: k in seen <==> k in validated
    {
      LinesNext(p.signer, keys, i);
      var key := Trim(keys[i]);
      if key == "" {
        continue;
      }
      if !p.signer(key) || key in seen {
        return false;
      }
      seen := seen + {key};
      validated := validated + [key];
    }
    cfg.allowedSigners := validated;
    ok := true;
  }

  method ValidateSettings(cfg: Config) returns (ok: bool)
    modifies cfg`settings
    ensures ok <==> GoodSettings(old(cfg.settings))
    ensures cfg.settings == if ok then old(cfg.settings).(ns := Trim(old(cfg.settings.ns))) else old(cfg.settings)
  {
    var ns := Trim(cfg.settings.ns);
    if ns == "" || !Ident(ns) {
      return false;
    }
    if cfg.settings.maxBackupBytes < 0 || cfg.settings.minDiskFreeBytes < 0 || cfg.settings.remoteRetries < 0 {
      return false;
    }
    cfg.settings := cfg.settings.(ns := ns);
    ok := true;
  }

  /** One trimmed remote; `methods` counts credential methods as the source does. */
  method CheckRemote(r: Remote) returns (ok: bool)
    ensures ok <==> GoodRemote(r)
  {
    if r.name == "" || !Ident(r.name) || r.kind != "s3" || r.bucket == "" {
      return false;
    }
    if r.credentialSource != "" && r.credentialSource != "default_chain" {
      return false;
    }
    var methods := 0;
    if r.accessKeyId != "" || r.secretAccessKey != "" {
      methods := methods + 1;
      if r.accessKeyId == "" || r.secretAccessKey == "" {
        return false;
      }
    }
    if r.awsProfile != "" {
      methods := methods + 1;
    }
    if r.credentialSource == "default_chain" {
      methods := methods + 1;
    }
    ok := methods == 1;
  }

  ghost function NameSet(rs: seq<Remote>, n: nat): set<string>
    requires n <= |rs|
  {
    set i | 0 <= i < n :: rs[i].name
  }

  lemma GoodNext(rs: seq<Remote>, i: nat)
    requires i < |rs|
    ensures NameSet(rs, i + 1) == NameSet(rs, i) + {rs[i].name}
    ensures GoodUpTo(rs, i) && GoodRemote(rs[i]) && rs[i].name !in NameSet(rs, i) <==> GoodUpTo(rs, i + 1)
    ensures GoodUpTo(rs, |rs|) ==> GoodUpTo(rs, i + 1)
  {
  }

  method ValidateRemotes(cfg: Config) returns (ok: bool)
    modifies cfg`remotes
    ensures ok <==> GoodRemotes(old(cfg.remotes))
    ensures ok ==> cfg.remotes == NormalRemotes(old(cfg.remotes))
    ensures |cfg.remotes| == |old(cfg.remotes)|
    ensures forall i :: 0 <= i < |cfg.remotes| ==>
      cfg.remotes[i] == old(cfg.remotes)[i] || cfg.remotes[i] == NormalRemote(old(cfg.remotes)[i])
  {
    ghost var before := cfg.remotes;
    ghost var normal := NormalRemotes(before);
    var names: set<string> := {};
    for i := 0 to |cfg.remotes|
      invariant |cfg.remotes| == |before|
      invariant forall k :: 0 <= k < |before| ==> cfg.remotes[k] == if k < i then normal[k] else before[k]
      invariant GoodUpTo(normal, i) && names == NameSet(normal, i)
    {
      var r := cfg.remotes[i];
      r := r.(name := Trim(r.name), kind := Trim(r.kind), bucket := Trim(r.bucket),
              awsProfile := Trim(r.awsProfile), credentialSource := Trim(r.credentialSource));
      cfg.remotes := cfg.remotes[i := r];
      GoodNext(normal, i);
      if r.name in names {
        return false;
      }
      names := names + {r.name};
      var good := CheckRemote(r);
      if !good {
        return false;
      }
    }
    assert cfg.remotes == normal;
    ok := true;
  }

  method CheckRefs(refs: seq<string>, known: seq<string>) returns (ok: bool)
    ensures ok <==> GoodRefs(refs, known)
  {
    var seen: set<string> := {};
    for i := 0 to |refs|
      invariant GoodRefs(refs[..i], known)
      invariant forall n :: n in seen <==> n in refs[..i]
    {
      if refs[i] !in known {
        return false;
      }
      if refs[i] in seen {
        ghost var j :| 0 <= j < i && refs[..i][j] == refs[i];
        assert refs[j] == refs[i];
        return false;
      }
      seen := seen + {refs[i]};
      assert refs[..i + 1] == refs[..i] + [refs[i]];
    }
    assert refs[..|refs|] == refs;
    ok := true;
  }

  method CheckEntry(id: string, e: BackupEntry, defaults: seq<string>, known: seq<string>) returns (ok: bool)
    ensures ok <==> GoodEntry(id, e, defaults, known)
  {
    var trimId := Trim(id);
    if trimId == "" || !Ident(trimId) {
      return false;
    }
    var sources := 0;
    if e.cmd != "" { sources := sources + 1; }
    if e.file != "" { sources := sources + 1; }
    if e.dir != "" { sources := sources + 1; }
    if sources != 1 {
      return false;
    }
    var name := Trim(e.objectName);
    if name == "" || !Ident(name) || HasSuffix(name, ".age") || HasSuffix(name, ".age2") {
      return false;
    }
    var refs := e.ResolvedRemotes(defaults);
    if |refs| == 0 {
      return false;
    }
    ok := CheckRefs(refs, known);
  }

  lemma NormalNext(all: map<string, BackupEntry>, done: set<string>, rebuilt: map<string, BackupEntry>, id: string)
    requires done <= all.Keys && IsNormal(all, done, rebuilt) && id in all && Trim(id) !in TrimmedIds(done)
    ensures IsNormal(all, done + {id}, rebuilt[Trim(id) := NormalEntry(all[id])])
  {
    assert TrimmedIds(done + {id}) == TrimmedIds(done) + {Trim(id)};
  }

  lemma ApartNext(all: map<string, BackupEntry>, done: set<string>, ns: string, id: string)
    requires done <= all.Keys && id in all && id !in done
    ensures Keys(all, done + {id}, ns) == Keys(all, done, ns) + {KeyOf(all[id], ns)}
    ensures AllApart(all, done, ns) && Trim(id) !in TrimmedIds(done) && KeyOf(all[id], ns) !in Keys(all, done, ns)
      <==> AllApart(all, done + {id}, ns)
  {
    if Trim(id) in TrimmedIds(done) || KeyOf(all[id], ns) in Keys(all, done, ns) {
      var other :| other in done && (Trim(other) == Trim(id) || KeyOf(all[other], ns) == KeyOf(all[id], ns));
      assert !Apart(other, id, all, ns) && other in done + {id} && id in done + {id};
    } else if AllApart(all, done, ns) {
      forall x <- done ensures Apart(x, id, all, ns) && Apart(id, x, all, ns) {
        assert Trim(x) in TrimmedIds(done) && KeyOf(all[x], ns) in Keys(all, done, ns);
      }
    } else {
      var x, y :| x in done && y in done && x != y && !Apart(x, y, all, ns);
      assert x in done + {id} && y in done + {id};
    }
  }

  /** What the loop over the entries has established for the ids in `done`. */
  ghost predicate Checked(
    all: map<string, BackupEntry>, done: set<string>, ns: string, defaults: seq<string>, known: seq<string>,
    ids: set<string>, keys: set<string>, rebuilt: map<string, BackupEntry>)
  {
    && done <= all.Keys
    && AllGood(all, done, defaults, known) && AllApart(all, done, ns) && IsNormal(all, done, rebuilt)
    && ids == TrimmedIds(done) && keys == Keys(all, done, ns)
  }

  lemma EntryNext(
    all: map<string, BackupEntry>, done: set<string>, ns: string, defaults: seq<string>, known: seq<string>,
    ids: set<string>, keys: set<string>, rebuilt: map<string, BackupEntry>, id: string)
    requires Checked(all, done, ns, defaults, known, ids, keys, rebuilt)
    requires id in all && id !in done && GoodEntry(id, all[id], defaults, known)
    requires Trim(id) !in ids && KeyOf(all[id], ns) !in keys
    ensures Checked(all, done + {id}, ns, defaults, known, ids + {Trim(id)}, keys + {KeyOf(all[id], ns)},
                    rebuilt[Trim(id) := NormalEntry(all[id])])
  {
    ApartNext(all, done, ns, id);
    NormalNext(all, done, rebuilt, id);
    assert TrimmedIds(done + {id}) == TrimmedIds(done) + {Trim(id)};
  }

  lemma EntryClashes(all: map<string, BackupEntry>, done: set<string>, ns: string, id: string)
    requires done <= all.Keys && id in all && id !in done
    requires Trim(id) in TrimmedIds(done) || KeyOf(all[id], ns) in Keys(all, done, ns)
    ensures !AllApart(all, all.Keys, ns)
  {
    ApartNext(all, done, ns, id);
    assert done + {id} <= all.Keys;
  }

  /**
   Accepts iff the declarative predicate holds, whatever the order of the map iteration, and then
   rebuilds the map without losing an entry; on rejection the map is untouched.
   */
  method ValidateBackups(cfg: Config) returns (ok: bool)
    modifies cfg`backups
    ensures ok <==> GoodBackups(old(cfg.backups), cfg.settings.ns, cfg.defaults, Names(cfg.remotes))
    ensures if ok then IsNormal(old(cfg.backups), old(cfg.backups).Keys, cfg.backups) else cfg.backups == old(cfg.backups)
  {
    var known := Names(cfg.remotes);
    var ns := cfg.settings.ns;
    ok := CheckRefs(cfg.defaults, known);
    if !ok {
      return;
    }
    var all := cfg.backups;
    var todo := all.Keys;
    var ids: set<string> := {};
    var keys: set<string> := {};
    var rebuilt: map<string, BackupEntry> := map[];
    while todo != {}
      invariant ok && todo <= all.Keys && cfg.backups == all
      invariant Checked(all, all.Keys - todo, ns, cfg.defaults, known, ids, keys, rebuilt)
      decreases todo
    {
      var id :| id in todo;
      ghost var done := all.Keys - todo;
      var good := CheckEntry(id, all[id], cfg.defaults, known);
      if !good {
        return false;
      }
      var entry := all[id].(objectName := Trim(all[id].objectName));
      var key := entry.DerivedKey(ns);
      if Trim(id) in ids || key in keys {
        EntryClashes(all, done, ns, id);
        return false;
      }
      EntryNext(all, done, ns, cfg.defaults, known, ids, keys, rebuilt, id);
      ids, keys, rebuilt := ids + {Trim(id)}, keys + {key}, rebuilt[Trim(id) := entry];
      todo := todo - {id};
      assert all.Keys - todo == done + {id};
    }
    assert all.Keys - todo == all.Keys;
    cfg.backups := rebuilt;
  }

  // ---- The whole of Validate ----

  datatype Snapshot = Snapshot(
    recipient: string, allowedSigners: seq<string>, settings: Settings, remotes: seq<Remote>,
    defaults: seq<string>, backups: map<string, BackupEntry>)

  function Snap(cfg: Config): Snapshot
    reads cfg
  {
    Snapshot(cfg.recipient, cfg.allowedSigners, cfg.settings, cfg.remotes, cfg.defaults, cfg.backups)
  }

  /** The declarative rules for a configuration as it was parsed. */
  ghost predicate Acceptable(p: Parsers, v: Snapshot) {
    && GoodKeys(p, v.recipient, v.allowedSigners)
    && GoodTargets(v.settings, v.remotes, v.defaults, v.backups)
  }

  ghost predicate GoodTargets(
    settings: Settings, remotes: seq<Remote>, defaults: seq<string>, backups: map<string, BackupEntry>)
  {
    && GoodSettings(settings) && GoodRemotes(remotes)
    && GoodBackups(backups, Trim(settings.ns), defaults, Names(NormalRemotes(remotes)))
  }

  /** w is v with everything trimmed and the entries rebuilt under their trimmed ids. */
  ghost predicate Normalises(v: Snapshot, w: Snapshot) {
    && w.recipient == Trim(v.recipient) && w.allowedSigners == NonBlank(v.allowedSigners)
    && w.settings == v.settings.(ns := Trim(v.settings.ns)) && w.remotes == NormalRemotes(v.remotes)
    && w.defaults == v.defaults && IsNormal(v.backups, v.backups.Keys, w.backups)
  }

  method ValidateKeys(cfg: Config, p: Parsers) returns (ok: bool)
    modifies cfg`recipient, cfg`allowedSigners
    ensures ok <==> GoodKeys(p, old(cfg.recipient), old(cfg.allowedSigners))
    ensures ok ==> cfg.recipient == Trim(old(cfg.recipient))
    ensures ok ==> cfg.allowedSigners == NonBlank(old(cfg.allowedSigners))
  {
    ok := ValidateEncryption(cfg, p);
    if !ok {
      return;
    }
    ok := ValidateSigning(cfg, p);
  }

  method ValidateTargets(cfg: Config) returns (ok: bool)
    modifies cfg`settings, cfg`remotes, cfg`backups
    ensures ok <==> GoodTargets(old(cfg.settings), old(cfg.remotes), cfg.defaults, old(cfg.backups))
    ensures ok ==> cfg.settings == old(cfg.settings).(ns := Trim(old(cfg.settings.ns)))
    ensures ok ==> cfg.remotes == NormalRemotes(old(cfg.remotes))
    ensures if ok then IsNormal(old(cfg.backups), old(cfg.backups).Keys, cfg.backups) else cfg.backups == old(cfg.backups)
  {
    ok := ValidateSettings(cfg);
    if !ok {
      return;
    }
    ok := ValidateRemotes(cfg);
    if !ok {
      return;
    }
    ok := ValidateBackups(cfg);
  }

  method Validate(cfg: Config, p: Parsers) returns (ok: bool)
    modifies cfg
    ensures ok <==> Acceptable(p, old(Snap(cfg)))
    ensures ok ==> Normalises(old(Snap(cfg)), Snap(cfg))
    ensures !ok ==> cfg.backups == old(cfg.backups)
    ensures cfg.hostKey == old(cfg.hostKey) && cfg.notifications == old(cfg.notifications)
  {
    ok := ValidateKeys(cfg, p);
    if !ok {
      return;
    }
    ok := ValidateTargets(cfg);
  }

  lemma {:induction false} NonBlankTrimmed(lines: seq<string>, n: nat)
    requires n <= |lines|
    ensures forall l :: l in NonBlankUpTo(lines, n) ==> l != "" && Trim(l) == l
  {
    if n > 0 {
      NonBlankTrimmed(lines, n - 1);
      TrimIdempotent(lines[n - 1]);
    }
  }

  lemma {:induction false} NonBlankFixes(lines: seq<string>, n: nat)
    requires n <= |lines| && forall l :: l in lines ==> l != "" && Trim(l) == l
    ensures NonBlankUpTo(lines, n) == lines[..n]
  {
    if n > 0 {
      NonBlankFixes(lines, n - 1);
      assert lines[n - 1] in lines;
      assert lines[..n] == lines[..n - 1] + [lines[n - 1]];
    }
  }

  lemma RemotesIdempotent(rs: seq<Remote>)
    ensures NormalRemotes(NormalRemotes(rs)) == NormalRemotes(rs)
  {
    forall i | 0 <= i < |rs| ensures NormalRemote(NormalRemote(rs[i])) == NormalRemote(rs[i]) {
      TrimIdempotent(rs[i].name);
      TrimIdempotent(rs[i].kind);
      TrimIdempotent(rs[i].bucket);
      TrimIdempotent(rs[i].awsProfile);
      TrimIdempotent(rs[i].credentialSource);
    }
  }

  lemma NormalEntryIdempotent(e: BackupEntry)
    ensures NormalEntry(NormalEntry(e)) == NormalEntry(e)
  {
    TrimIdempotent(e.objectName);
  }

  /** Every rebuilt entry comes from one parsed entry, under the trimmed form of its id. */
  lemma Origin(all: map<string, BackupEntry>, rebuilt: map<string, BackupEntry>, t: string) returns (id: string)
    requires IsNormal(all, all.Keys, rebuilt) && t in rebuilt
    ensures id in all && Trim(id) == t && rebuilt[t] == NormalEntry(all[id]) && Trim(t) == t
  {
    id :| id in all && Trim(id) == t;
    TrimIdempotent(id);
  }

  lemma EntryStaysGood(id: string, e: BackupEntry, defaults: seq<string>, known: seq<string>)
    requires GoodEntry(id, e, defaults, known)
    ensures GoodEntry(Trim(id), NormalEntry(e), defaults, known)
  {
    TrimIdempotent(id);
    NormalEntryIdempotent(e);
    assert NormalEntry(e).ResolvedRemotes(defaults) == e.ResolvedRemotes(defaults);
  }

  lemma RebuiltEntries(
    all: map<string, BackupEntry>, rebuilt: map<string, BackupEntry>, defaults: seq<string>, known: seq<string>)
    requires AllGood(all, all.Keys, defaults, known) && IsNormal(all, all.Keys, rebuilt)
    ensures AllGood(rebuilt, rebuilt.Keys, defaults, known)
  {
    forall t <- rebuilt.Keys ensures GoodEntry(t, rebuilt[t], defaults, known) {
      var id := Origin(all, rebuilt, t);
      EntryStaysGood(id, all[id], defaults, known);
    }
  }

  /** Every id and object name is already trimmed. */
  predicate AllTrimmed(backups: map<string, BackupEntry>) {
    forall id <- backups :: Trim(id) == id && NormalEntry(backups[id]) == backups[id]
  }

  lemma RebuiltTrimmed(all: map<string, BackupEntry>, rebuilt: map<string, BackupEntry>)
    requires IsNormal(all, all.Keys, rebuilt)
    ensures AllTrimmed(rebuilt)
  {
    forall t <- rebuilt ensures Trim(t) == t && NormalEntry(rebuilt[t]) == rebuilt[t] {
      var id := Origin(all, rebuilt, t);
      NormalEntryIdempotent(all[id]);
    }
  }

  lemma TrimmedIsNormal(backups: map<string, BackupEntry>)
    requires AllTrimmed(backups)
    ensures IsNormal(backups, backups.Keys, backups)
  {
    assert TrimmedIds(backups.Keys) == backups.Keys;
  }

  lemma RebuiltApart(all: map<string, BackupEntry>, rebuilt: map<string, BackupEntry>, ns: string)
    requires AllApart(all, all.Keys, ns) && IsNormal(all, all.Keys, rebuilt)
    ensures AllApart(rebuilt, rebuilt.Keys, ns)
  {
    forall t1 <- rebuilt, t2 <- rebuilt | t1 != t2 ensures Apart(t1, t2, rebuilt, ns) {
      var id1 := Origin(all, rebuilt, t1);
      var id2 := Origin(all, rebuilt, t2);
      NormalEntryIdempotent(all[id1]);
      NormalEntryIdempotent(all[id2]);
      assert Apart(id1, id2, all, ns);
    }
  }

  /** An accepted configuration is accepted again and left as it is. */
  lemma ValidateIdempotent(p: Parsers, v: Snapshot, w: Snapshot)
    requires Acceptable(p, v) && Normalises(v, w)
    ensures Acceptable(p, w) && Normalises(w, w) && AllTrimmed(w.backups)
  {
    TrimIdempotent(v.recipient);
    TrimIdempotent(v.settings.ns);
    NonBlankTrimmed(v.allowedSigners, |v.allowedSigners|);
    NonBlankFixes(w.allowedSigners, |w.allowedSigners|);
    RemotesIdempotent(v.remotes);
    RebuiltEntries(v.backups, w.backups, v.defaults, Names(w.remotes));
    RebuiltApart(v.backups, w.backups, w.settings.ns);
    RebuiltTrimmed(v.backups, w.backups);
    TrimmedIsNormal(w.backups);
  }

  /** The outcome does not depend on the iteration order: there is only one normal form. */
  lemma NormalFormUnique(v: Snapshot, w1: Snapshot, w2: Snapshot)
    requires Normalises(v, w1) && Normalises(v, w2)
    ensures w1 == w2
  {
    forall t <- w1.backups ensures w1.backups[t] == w2.backups[t] {
      var id :| id in v.backups && Trim(id) == t;
    }
    assert w1.backups == w2.backups;
  }

  lemma {:induction false} TrimmedIdsCount(ids: set<string>)
    requires forall a <- ids, b <- ids :: a != b ==> Trim(a) != Trim(b)
    ensures |TrimmedIds(ids)| == |ids|
  {
    if ids != {} {
      var id :| id in ids;
      TrimmedIdsCount(ids - {id});
      assert TrimmedIds(ids) == TrimmedIds(ids - {id}) + {Trim(id)};
    }
  }

  /** Rebuilding loses no entry. */
  lemma NoEntryLost(all: map<string, BackupEntry>, rebuilt: map<string, BackupEntry>, ns: string)
    requires AllApart(all, all.Keys, ns) && IsNormal(all, all.Keys, rebuilt)
    ensures |rebuilt.Keys| == |all.Keys|
  {
    forall a <- all.Keys, b <- all.Keys | a != b ensures Trim(a) != Trim(b) {
      assert Apart(a, b, all, ns);
    }
    TrimmedIdsCount(all.Keys);
  }
}

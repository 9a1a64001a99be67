/**
 Recipient fingerprints: the metadata written at backup time, the fingerprints of an identity file, and
 the precheck that compares the two before a restore.
 */
module Recipients {
  import opened Base
  import opened Text
  import Sorting
  import Validate

  /**
   The key library: the canonical form of a recipient, the recipient of a secret key line, which lines
   are secret keys at all, and the SHA-256 fingerprint in hexadecimal.
   */
  datatype KeyLib = KeyLib(
    canonical: string -> Option<string>, recipientOf: string -> Option<string>, isSecret: string -> bool,
    fingerprint: string -> string)
  {
    /** Fingerprints are not empty and hold neither commas nor spaces. */
    ghost predicate Valid() {
      forall r: string :: fingerprint(r) != "" && Trimmed(fingerprint(r)) && ',' !in fingerprint(r)
    }
  }

  /** The fingerprint of one recipient line, if it parses. */
  function LinePrint(lib: KeyLib, line: string): Option<string> {
    var c := lib.canonical(Trim(line));
    if Trim(line) == "" || c.None? then None else Some(lib.fingerprint(c.value))
  }

  /** The fingerprint of the recipient of one identity line, if both parse. */
  function SecretPrint(lib: KeyLib, line: string): Option<string> {
    var r := lib.recipientOf(line);
    if r.None? then None else LinePrint(lib, r.value)
  }

  function RecipientLines(s: string): seq<string> {
    Validate.NonBlank(Split(s, '\n'))
  }

  predicate AllParse(lib: KeyLib, lines: seq<string>) {
    forall i :: 0 <= i < |lines| ==> LinePrint(lib, lines[i]).Some?
  }

  function Prints(lib: KeyLib, lines: seq<string>): seq<string>
    requires AllParse(lib, lines)
  {
    seq(|lines|, i requires 0 <= i < |lines| => LinePrint(lib, lines[i]).value)
  }

  lemma PrintsNext(lib: KeyLib, before: seq<string>, line: string)
    requires AllParse(lib, before) && Trim(line) == line
    ensures AllParse(lib, before + [line]) <==> LinePrint(lib, line).Some?
    ensures LinePrint(lib, line).Some? ==>
      Prints(lib, before + [line]) == Prints(lib, before) + [LinePrint(lib, line).value]
  {
    var upTo := before + [line];
    assert upTo[|before|] == line;
    assert forall i :: 0 <= i < |before| ==> upTo[i] == before[i];
  }

  /** RecipientFingerprints: the metadata value, or an error for no recipient or an unsupported one. */
  method RecipientFingerprints(lib: KeyLib, recipient: string) returns (r: Option<string>)
    ensures var lines := RecipientLines(recipient);
      r == if lines != [] && AllParse(lib, lines) then Some(Join(Prints(lib, lines), ',')) else None
  {
    var raw := Split(recipient, '\n');
    ghost var lines: seq<string> := [];
    var fps: seq<string> := [];
    for i := 0 to |raw|
      invariant lines == Validate.NonBlankUpTo(raw, i)
      invariant AllParse(lib, lines) && fps == Prints(lib, lines)
    {
      Validate.NonBlankPrefix(raw, i + 1, |raw|);
      var line := Trim(raw[i]);
      if line == "" {
        assert lines + [] == lines;
        continue;
      }
      TrimIdempotent(raw[i]);
      PrintsNext(lib, lines, line);
      var c := lib.canonical(line);
      if c.None? {
        assert (lines + [line])[|lines|] == line == Validate.NonBlank(raw)[|lines|];
        return None;
      }
      fps, lines := fps + [lib.fingerprint(c.value)], lines + [line];
    }
    if |fps| == 0 {
      return None;
    }
    return Some(Join(fps, ','));
  }

  // ---- Which accepted recipient texts have fingerprints ----

  /**
   Validation and fingerprints rest on the same key parsers: what one takes for a recipient, bare of
   space, the other can put in canonical form, and neither takes a comment for one.
   */
  ghost predicate Agree(p: Validate.Parsers, lib: KeyLib) {
    && (forall l: string :: p.recipient(l) ==> l != "" && Trimmed(l) && lib.canonical(l).Some?)
    && (forall l: string :: lib.canonical(l).Some? ==> !HasPrefix(l, "#"))
  }

  /** Some line of the text is a comment. */
  predicate HasComment(text: string) {
    exists i :: 0 <= i < |Split(text, '\n')| && HasPrefix(Split(text, '\n')[i], "#")
  }

  predicate HasPrints(lib: KeyLib, text: string) {
    RecipientLines(text) != [] && AllParse(lib, RecipientLines(text))
  }

  lemma ScannedTrim(line: string)
    ensures Trim(Validate.Scanned(line)) == Trim(line)
  {
    if line != [] && line[|line| - 1] == '\r' {
      TrimSpaceEnd(line[..|line| - 1], '\r');
      assert line == line[..|line| - 1] + ['\r'];
    }
  }

  lemma {:induction false} TrimSpaceEnd(s: string, c: char)
    requires IsSpace(c)
    ensures Trim(s + [c]) == Trim(s)
    decreases |s|
  {
    if s == [] {
      assert s + [c] == [c] && [c][1..] == [];
    } else if IsSpace(s[0]) {
      TrimSpaceEnd(s[1..], c);
      assert (s + [c])[1..] == s[1..] + [c];
    } else {
      assert (s + [c])[..|s + [c]| - 1] == s;
    }
  }

  lemma CommentStays(line: string)
    requires HasPrefix(line, "#")
    ensures HasPrefix(Trim(line), "#")
  {
    assert line[0] == '#';
    assert TrimLeft(line) == line;
    TrimRightKeeps(line);
  }

  lemma {:induction false} TrimRightKeeps(s: string)
    requires s != [] && !IsSpace(s[0])
    ensures TrimRight(s) != [] && TrimRight(s)[0] == s[0]
    decreases |s|
  {
    if IsSpace(s[|s| - 1]) {
      TrimRightKeeps(s[..|s| - 1]);
    }
  }

  /** One line of an accepted text: blank, or a comment without a fingerprint, or a recipient with one. */
  lemma AcceptedLine(p: Validate.Parsers, lib: KeyLib, line: string)
    requires Agree(p, lib)
    requires var l := Validate.Scanned(line); Validate.Skipped(l) || p.recipient(l)
    ensures HasPrefix(line, "#") ==> Trim(line) != "" && LinePrint(lib, Trim(line)).None?
    ensures !HasPrefix(line, "#") && Trim(line) != "" ==> LinePrint(lib, Trim(line)).Some?
    ensures !Validate.Skipped(Validate.Scanned(line)) ==> Trim(line) != ""
  {
    var l := Validate.Scanned(line);
    ScannedTrim(line);
    TrimIdempotent(line);
    if HasPrefix(line, "#") {
      CommentStays(line);
    } else if p.recipient(l) {
      TrimFixes(l);
    }
  }

  lemma {:induction false} KeptLines(lines: seq<string>, n: nat, x: string)
    requires n <= |lines|
    ensures x in Validate.NonBlankUpTo(lines, n) <==> exists i :: 0 <= i < n && Trim(lines[i]) == x != ""
  {
    if n > 0 {
      KeptLines(lines, n - 1, x);
    }
  }

  lemma {:induction false} CountedLine(p: Validate.Parsers, lines: seq<string>, n: nat)
    requires n <= |lines| && p.Counted(lines, n) > 0
    ensures exists i :: 0 <= i < n && !Validate.Skipped(Validate.Scanned(lines[i]))
  {
    if Validate.Skipped(Validate.Scanned(lines[n - 1])) {
      CountedLine(p, lines, n - 1);
    }
  }

  lemma {:induction false} SplitSnoc(s: string, sep: char)
    ensures Split(s + [sep], sep) == Split(s, sep) + [[]]
  {
    if s == [] {
      assert s + [sep] == [sep] && [sep][1..] == [];
    } else {
      assert (s + [sep])[0] == s[0] && (s + [sep])[1..] == s[1..] + [sep];
      SplitSnoc(s[1..], sep);
    }
  }

  /**
   When an accepted recipient text has fingerprints: exactly when no line of it is a comment.  The
   parser that validation uses skips comments, and the one that collects fingerprints rejects them.
   */
  lemma AcceptedHasPrintsIff(p: Validate.Parsers, lib: KeyLib, recipient: string)
    requires Agree(p, lib) && Validate.GoodEncryption(p, recipient)
    ensures HasPrints(lib, Trim(recipient)) <==> !HasComment(Trim(recipient))
  {
    var text := Trim(recipient);
    var lines := Split(text, '\n');
    SplitSnoc(text, '\n');
    assert text + "\n" == text + ['\n'];
    var all := Split(text + "\n", '\n');
    assert forall i :: 0 <= i < |lines| ==> lines[i] == all[i];
    forall i | 0 <= i < |lines|
      ensures HasPrefix(lines[i], "#") ==> Trim(lines[i]) != "" && LinePrint(lib, Trim(lines[i])).None?
      ensures !HasPrefix(lines[i], "#") && Trim(lines[i]) != "" ==> LinePrint(lib, Trim(lines[i])).Some?
      ensures !Validate.Skipped(Validate.Scanned(lines[i])) ==> Trim(lines[i]) != ""
    {
      AcceptedLine(p, lib, all[i]);
    }
    CountedLine(p, all, |all|);
    var c :| 0 <= c < |all| && !Validate.Skipped(Validate.Scanned(all[c]));
    PrintsOfLines(lib, lines, c);
  }

  lemma CountCommentedKey(p: Validate.Parsers, key: string)
    requires p.recipient(key) && Validate.Scanned(key) == key && !Validate.Skipped(key)
    requires '\n' !in key
    ensures p.Recipients("#\n" + key + "\n") == Some(1)
  {
    assert "#\n" + key + "\n" == "#" + ['\n'] + (key + ['\n'] + "");
    SplitHead("#", key + ['\n'] + "", '\n');
    SplitHead(key, "", '\n');
    var all := ["#", key, ""];
    assert Split("#\n" + key + "\n", '\n') == all;
    assert all[0] == "#" && p.Counted(all, 1) == 0;
    assert all[1] == key && p.Counted(all, 2) == 1;
    assert all[2] == "" && p.Counted(all, 3) == 1;
  }

  /** The smallest such text: a comment and a key. */
  lemma CommentedKey(p: Validate.Parsers, lib: KeyLib, key: string)
    requires Agree(p, lib) && p.recipient(key) && '\n' !in key
    ensures Validate.GoodEncryption(p, "#\n" + key) && !HasPrints(lib, "#\n" + key)
  {
    var text := "#\n" + key;
    assert text[0] == '#' && text[|text| - 1] == key[|key| - 1];
    TrimFixes(text);
    TrimFixes(key);
    CountCommentedKey(p, key);
    assert text == "#" + ['\n'] + key;
    SplitHead("#", key, '\n');
    SplitHead(key, "", '\n');
    var lines := Split(text, '\n');
    assert lines == ["#", key];
    assert Validate.NonBlankUpTo(lines, 0) == [] && Validate.NonBlankUpTo(lines, 1) == ["#"];
    assert Validate.NonBlank(lines) == ["#", key] && "#" != key;
    AcceptedHasPrintsIff(p, lib, text);
    assert HasPrefix(lines[0], "#");
  }

  lemma PrintsOfLines(lib: KeyLib, lines: seq<string>, c: nat)
    requires c < |lines| && Trim(lines[c]) != ""
    ensures Validate.NonBlank(lines) != []
    ensures AllParse(lib, Validate.NonBlank(lines)) <==>
      forall i :: 0 <= i < |lines| && Trim(lines[i]) != "" ==> LinePrint(lib, Trim(lines[i])).Some?
  {
    var kept := Validate.NonBlank(lines);
    forall x ensures x in kept <==> exists i :: 0 <= i < |lines| && Trim(lines[i]) == x != "" {
      KeptLines(lines, |lines|, x);
    }
    assert Trim(lines[c]) in kept;
    if AllParse(lib, kept) {
      forall i | 0 <= i < |lines| && Trim(lines[i]) != "" ensures LinePrint(lib, Trim(lines[i])).Some? {
        assert Trim(lines[i]) in kept;
      }
    } else {
      var k :| 0 <= k < |kept| && LinePrint(lib, kept[k]).None?;
      assert kept[k] in kept;
    }
  }

  /** The lines of an identity file that the collector looks at. */
  predicate SecretLine(lib: KeyLib, line: string) {
    line != "" && !HasPrefix(line, "#") && lib.isSecret(line)
  }

  predicate SecretsParse(lib: KeyLib, lines: seq<string>, n: nat)
    requires n <= |lines|
  {
    forall i :: 0 <= i < n && SecretLine(lib, Trim(lines[i])) ==> SecretPrint(lib, Trim(lines[i])).Some?
  }

  /** The fingerprints of the secret keys among the first n lines. */
  ghost function SecretPrints(lib: KeyLib, lines: seq<string>, n: nat): set<string>
    requires n <= |lines| && SecretsParse(lib, lines, n)
  {
    set i | 0 <= i < n && SecretLine(lib, Trim(lines[i])) :: SecretPrint(lib, Trim(lines[i])).value
  }

  lemma SecretsNext(lib: KeyLib, lines: seq<string>, i: nat)
    requires i < |lines| && SecretsParse(lib, lines, i)
    ensures SecretsParse(lib, lines, i + 1) <==>
      (SecretLine(lib, Trim(lines[i])) ==> SecretPrint(lib, Trim(lines[i])).Some?)
    ensures SecretsParse(lib, lines, i + 1) ==>
      SecretPrints(lib, lines, i + 1) == SecretPrints(lib, lines, i) +
        if SecretLine(lib, Trim(lines[i])) then {SecretPrint(lib, Trim(lines[i])).value} else {}
  {
  }

  /** IdentityFileRecipientFingerprints on the contents of the file: each fingerprint once, sorted. */
  method IdentityFingerprints(lib: KeyLib, lines: seq<string>) returns (r: Option<seq<string>>)
    ensures r.Some? <==> SecretsParse(lib, lines, |lines|)
    ensures r.Some? ==> Sorting.IsSorted(SecretPrints(lib, lines, |lines|), r.value)
  {
    var found: set<string> := {};
    for i := 0 to |lines|
      invariant SecretsParse(lib, lines, i) && found == SecretPrints(lib, lines, i)
    {
      SecretsNext(lib, lines, i);
      var line := Trim(lines[i]);
      if line == "" || HasPrefix(line, "#") || !lib.isSecret(line) {
        continue;
      }
      var recipient := lib.recipientOf(line);
      if recipient.None? {
        return None;
      }
      var c := lib.canonical(Trim(recipient.value));
      if Trim(recipient.value) == "" || c.None? {
        return None;
      }
      found := found + {lib.fingerprint(c.value)};
    }
    var sorted := Sorting.SortStrings(found);
    return Some(sorted);
  }

  ghost function TrimSet(parts: seq<string>): set<string> {
    set p | p in parts :: Trim(p)
  }

  /** Some fingerprint equals some trimmed part: the two nested loops with their early return. */
  method AnyCommon(fps: seq<string>, parts: seq<string>) returns (found: bool)
    ensures found <==> exists x :: x in fps && x in TrimSet(parts)
  {
    for i := 0 to |fps|
      invariant forall a :: 0 <= a < i ==> fps[a] !in TrimSet(parts)
    {
      for j := 0 to |parts|
        invariant forall b :: 0 <= b < j ==> fps[i] != Trim(parts[b])
      {
        if fps[i] == Trim(parts[j]) {
          assert fps[i] in fps && parts[j] in parts;
          return true;
        }
      }
    }
    return false;
  }

  lemma CommonIffMeet(secrets: set<string>, fps: seq<string>, other: set<string>)
    requires forall x :: x in secrets <==> x in fps
    ensures (exists x :: x in fps && x in other) <==> secrets * other != {}
    ensures |fps| == 0 <==> secrets == {}
  {
    if x :| x in fps && x in other {
      assert x in secrets * other;
    }
    assert |fps| > 0 ==> fps[0] in secrets;
    assert secrets != {} ==> exists x :: x in secrets && x in fps;
  }

  /**
   precheckIdentityRecipient: `recorded` is the metadata value ("" when absent) and `identity` the
   contents of the identity file, None when the file cannot be used.
   */
  method PrecheckRecipient(lib: KeyLib, recorded: string, identity: Option<string>) returns (ok: bool)
    ensures ok <==> PrecheckPasses(lib, recorded, identity)
  {
    var expected := Trim(recorded);
    if expected == "" {
      return true;
    }
    if identity.None? {
      return false;
    }
    var lines := Split(identity.value, '\n');
    var ids := IdentityFingerprints(lib, lines);
    if ids.None? {
      return false;
    }
    ghost var secrets := SecretPrints(lib, lines, |lines|);
    CommonIffMeet(secrets, ids.value, RecordedSet(recorded));
    if |ids.value| == 0 {
      return true;
    }
    ok := AnyCommon(ids.value, Split(expected, ','));
  }

  /** The fingerprints an object's metadata names. */
  ghost function RecordedSet(recorded: string): set<string> {
    TrimSet(Split(Trim(recorded), ','))
  }

  /** The metadata is blank, or the identity file yields no supported key, or the two sets meet. */
  ghost predicate PrecheckPasses(lib: KeyLib, recorded: string, identity: Option<string>) {
    Trim(recorded) == "" ||
    (identity.Some? &&
     (var lines := Split(identity.value, '\n');
      SecretsParse(lib, lines, |lines|) &&
      (var secrets := SecretPrints(lib, lines, |lines|);
       secrets == {} || secrets * RecordedSet(recorded) != {})))
  }

  /** Writing the metadata and reading it back gives exactly the set of recipient fingerprints. */
  lemma RecordedRoundTrip(lib: KeyLib, lines: seq<string>)
    requires lib.Valid() && lines != [] && AllParse(lib, lines)
    ensures var recorded := Join(Prints(lib, lines), ',');
      Trim(recorded) != "" && RecordedSet(recorded) == set p | p in Prints(lib, lines)
  {
    var prints := Prints(lib, lines);
    var recorded := Join(prints, ',');
    JoinTrimmed(prints, ',');
    TrimFixes(recorded);
    forall p | p in prints ensures ',' !in p && Trim(p) == p && p != "" {
      var i :| 0 <= i < |prints| && prints[i] == p;
      TrimFixes(p);
    }
    SplitJoin(prints, ',');
    var back := Split(Trim(recorded), ',');
    assert back == prints;
    forall x ensures x in RecordedSet(recorded) <==> x in prints {
      if x in RecordedSet(recorded) {
        var p :| p in back && Trim(p) == x;
      }
      if x in prints {
        assert x in back && Trim(x) == x;
      }
    }
  }

  lemma {:induction false} JoinTrimmed(parts: seq<string>, sep: char)
    requires parts != [] && forall i :: 0 <= i < |parts| ==> parts[i] != "" && Trimmed(parts[i])
    ensures Join(parts, sep) != "" && Trimmed(Join(parts, sep))
  {
    if |parts| > 1 {
      JoinTrimmed(parts[1..], sep);
      var j := Join(parts, sep);
      var back := Join(parts[1..], sep);
      assert j[0] == parts[0][0];
      assert j[|j| - 1] == back[|back| - 1];
    }
  }

  /** An identity file with a key for any one configured recipient passes the precheck. */
  lemma OwnRecipientPasses(lib: KeyLib, lines: seq<string>, k: nat, identity: string, m: nat)
    requires lib.Valid() && lines != [] && AllParse(lib, lines) && k < |lines|
    requires var file := Split(identity, '\n');
      SecretsParse(lib, file, |file|) && m < |file| && SecretLine(lib, Trim(file[m])) &&
      SecretPrint(lib, Trim(file[m])) == LinePrint(lib, lines[k])
    ensures PrecheckPasses(lib, Join(Prints(lib, lines), ','), Some(identity))
  {
    RecordedRoundTrip(lib, lines);
    var file := Split(identity, '\n');
    var recorded := Join(Prints(lib, lines), ',');
    var fp := Prints(lib, lines)[k];
    assert fp in Prints(lib, lines);
    assert fp in SecretPrints(lib, file, |file|) by {
      assert SecretPrint(lib, Trim(file[m])).value == fp;
    }
    assert fp in SecretPrints(lib, file, |file|) * RecordedSet(recorded);
  }
}

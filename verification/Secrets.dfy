/**
 `${VAR}` substitution in secret-bearing fields.  The scanner is a loop over the text; its meaning is a
 tokenise-then-substitute function, and the tokens are characterised independently of the scan.
 */
module Secrets {
  import opened Base
  import opened Config

  /** os.LookupEnv as a value. */
  type Env = map<string, string>

  predicate NameStart(c: char) {
    'A' <= c <= 'Z' || 'a' <= c <= 'z' || c == '_'
  }

  predicate NameChar(c: char) {
    NameStart(c) || '0' <= c <= '9'
  }

  /** The characters of a variable name by code points; a digit cannot come first. */
  lemma NameAlphabet(c: char)
    ensures NameStart(c) <==> var u := c as int; 65 <= u <= 90 || 97 <= u <= 122 || u == 95
    ensures NameChar(c) <==> var u := c as int; 48 <= u <= 57 || 65 <= u <= 90 || 97 <= u <= 122 || u == 95
  {
  }

  predicate IsName(n: string) {
    n != [] && NameStart(n[0]) && forall i :: 0 <= i < |n| ==> NameChar(n[i])
  }

  /** s[i..e] is one occurrence of the pattern \$\{([A-Za-z_][A-Za-z0-9_]*)\}. */
  predicate Matches(s: string, i: nat, e: nat) {
    && i + 3 < e <= |s| && s[i] == '$' && s[i + 1] == '{' && s[e - 1] == '}'
    && NameStart(s[i + 2]) && (forall k :: i + 2 <= k < e - 1 ==> NameChar(s[k]))
  }

  predicate MatchedAt(s: string, i: nat) {
    exists e: nat | e <= |s| :: Matches(s, i, e)
  }

  function NameOf(s: string, i: nat, e: nat): string
    requires Matches(s, i, e)
  {
    s[i + 2..e - 1]
  }

  /** The first position from i on that is not a name character. */
  function NameEnd(s: string, i: nat): (e: nat)
    requires i <= |s|
    ensures i <= e <= |s| && (e < |s| ==> !NameChar(s[e]))
    ensures forall k :: i <= k < e ==> NameChar(s[k])
    decreases |s| - i
  {
    if i < |s| && NameChar(s[i]) then NameEnd(s, i + 1) else i
  }

  /** The end of the match that starts at i, if there is one; the greedy repetition is deterministic. */
  function MatchEnd(s: string, i: nat): (e: Option<nat>)
    ensures e.Some? ==> Matches(s, i, e.value)
  {
    if i + 3 < |s| && s[i] == '$' && s[i + 1] == '{' && NameStart(s[i + 2]) then
      var e := NameEnd(s, i + 3);
      if e < |s| && s[e] == '}' then Some(e + 1) else None
    else
      None
  }

  /** The scanner finds a match exactly where the pattern occurs, and there is only one end. */
  lemma MatchEndIff(s: string, i: nat, e: nat)
    ensures MatchEnd(s, i) == Some(e) <==> Matches(s, i, e)
  {
    if Matches(s, i, e) {
      var n := NameEnd(s, i + 3);
      assert !NameChar(s[e - 1]);
    }
  }

  datatype Token = Lit(c: char) | Var(name: string)

  /** Leftmost, non-overlapping: a match at the current position is taken whole. */
  function Tokenise(s: string, i: nat): seq<Token>
    requires i <= |s|
    decreases |s| - i
  {
    if i == |s| then []
    else
      var e := MatchEnd(s, i);
      if e.Some? then [Var(NameOf(s, i, e.value))] + Tokenise(s, e.value) else [Lit(s[i])] + Tokenise(s, i + 1)
  }

  function Print(ts: seq<Token>): string {
    if ts == [] then []
    else (if ts[0].Lit? then [ts[0].c] else "${" + ts[0].name + "}") + Print(ts[1..])
  }

  /** The starting positions of the variable tokens. */
  function Starts(s: string, i: nat): set<nat>
    requires i <= |s|
    decreases |s| - i
  {
    if i == |s| then {}
    else
      var e := MatchEnd(s, i);
      if e.Some? then {i} + Starts(s, e.value) else Starts(s, i + 1)
  }

  /** Each variable replaced by its value, in one pass; None when some variable is not set. */
  function Substitute(ts: seq<Token>, env: Env): Option<string> {
    if ts == [] then Some([])
    else
      var rest := Substitute(ts[1..], env);
      match ts[0]
      case Lit(c) => if rest.Some? then Some([c] + rest.value) else None
      case Var(n) => if rest.Some? && n in env then Some(env[n] + rest.value) else None
  }

  function Resolve(s: string, env: Env): Option<string> {
    Substitute(Tokenise(s, 0), env)
  }

  lemma MatchText(s: string, i: nat, e: nat)
    requires Matches(s, i, e)
    ensures s[i..] == "${" + NameOf(s, i, e) + "}" + s[e..]
  {
    assert s[i..] == s[i..i + 2] + s[i + 2..e - 1] + s[e - 1..e] + s[e..];
    assert s[i..i + 2] == "${" && s[e - 1..e] == "}";
  }

  /** The tokens print back to the text. */
  lemma {:induction false} PrintTokens(s: string, i: nat)
    requires i <= |s|
    ensures Print(Tokenise(s, i)) == s[i..]
    decreases |s| - i
  {
    if i < |s| {
      var e := MatchEnd(s, i);
      if e.Some? {
        PrintTokens(s, e.value);
        MatchText(s, i, e.value);
        assert Tokenise(s, i)[1..] == Tokenise(s, e.value);
      } else {
        PrintTokens(s, i + 1);
        assert Tokenise(s, i)[1..] == Tokenise(s, i + 1);
        assert s[i..] == [s[i]] + s[i + 1..];
      }
    }
  }

  /** Matches never overlap: inside one there is no further dollar sign. */
  lemma NoNestedMatch(s: string, i: nat, e: nat, j: nat)
    requires Matches(s, i, e) && i < j < e
    ensures !MatchedAt(s, j)
  {
    assert s[j] != '$';
  }

  /**
   The variable tokens are exactly the places where the pattern occurs, so no run of literals holds a
   further match.
   */
  lemma {:induction false} StartsAreAllMatches(s: string, i: nat, j: nat)
    requires i <= |s|
    ensures j in Starts(s, i) <==> i <= j && MatchedAt(s, j)
    decreases |s| - i
  {
    if i < |s| {
      var e := MatchEnd(s, i);
      if e.Some? {
        StartsAreAllMatches(s, e.value, j);
        if i < j < e.value {
          NoNestedMatch(s, i, e.value, j);
        }
      } else {
        StartsAreAllMatches(s, i + 1, j);
        if MatchedAt(s, i) {
          var end: nat :| Matches(s, i, end);
          MatchEndIff(s, i, end);
        }
      }
    }
  }

  /** Every variable mentioned from position i on is set. */
  predicate AllSet(s: string, i: nat, env: Env) {
    forall j: nat, e: nat | i <= j < e <= |s| :: Matches(s, j, e) ==> NameOf(s, j, e) in env
  }

  lemma AllSetNext(s: string, i: nat, env: Env)
    requires i < |s|
    ensures var m := MatchEnd(s, i);
      AllSet(s, i, env) <==>
        if m.Some? then NameOf(s, i, m.value) in env && AllSet(s, m.value, env) else AllSet(s, i + 1, env)
  {
    var m := MatchEnd(s, i);
    forall e: nat | Matches(s, i, e) ensures m == Some(e) {
      MatchEndIff(s, i, e);
    }
    if m.Some? {
      forall j: nat | i < j < m.value ensures !MatchedAt(s, j) {
        NoNestedMatch(s, i, m.value, j);
      }
    }
  }

  lemma {:induction false} SubstituteIff(s: string, i: nat, env: Env)
    requires i <= |s|
    ensures Substitute(Tokenise(s, i), env).Some? <==> AllSet(s, i, env)
    decreases |s| - i
  {
    if i < |s| {
      AllSetNext(s, i, env);
      var m := MatchEnd(s, i);
      var next := if m.Some? then m.value else i + 1;
      SubstituteIff(s, next, env);
      assert Tokenise(s, i)[1..] == Tokenise(s, next);
    }
  }

  /** Resolution succeeds iff every variable the text mentions is set. */
  lemma ResolveSucceedsIff(s: string, env: Env)
    ensures Resolve(s, env).Some? <==> AllSet(s, 0, env)
  {
    SubstituteIff(s, 0, env);
  }

  // ---- One pass: substituted values are not scanned ----

  lemma {:induction false} SubstituteAppend(a: seq<Token>, b: seq<Token>, env: Env)
    ensures Substitute(a + b, env) == Both(Substitute(a, env), Substitute(b, env))
  {
    if a == [] {
      assert a + b == b;
      assert forall t: string :: [] + t == t;
    } else {
      SubstituteAppend(a[1..], b, env);
      assert (a + b)[0] == a[0] && (a + b)[1..] == a[1..] + b;
      var x, y := Substitute(a[1..], env), Substitute(b, env);
      if x.Some? && y.Some? {
        var head := if a[0].Lit? then [a[0].c] else if a[0].name in env then env[a[0].name] else [];
        assert head + (x.value + y.value) == head + x.value + y.value;
      }
    }
  }

  /** Two results one after the other, if there are both. */
  function Both(x: Option<string>, y: Option<string>): Option<string> {
    if x.Some? && y.Some? then Some(x.value + y.value) else None
  }

  /** The value of a variable, if it is set. */
  function Lookup(env: Env, n: string): Option<string> {
    if n in env then Some(env[n]) else None
  }

  lemma SubstituteOne(n: string, env: Env)
    ensures Substitute([Var(n)], env) == Lookup(env, n)
  {
    assert [Var(n)][1..] == [] && Substitute([], env) == Some("");
    if n in env {
      assert env[n] + "" == env[n];
    }
  }

  lemma MatchShifts(s: string, d: nat, i: nat, e: nat)
    requires d <= |s|
    ensures Matches(s[d..], i, e) <==> Matches(s, d + i, d + e)
    ensures Matches(s[d..], i, e) ==> NameOf(s[d..], i, e) == NameOf(s, d + i, d + e)
  {
    if Matches(s, d + i, d + e) {
      assert forall k :: i + 2 <= k < e - 1 ==> s[d..][k] == s[d + k];
    }
    if Matches(s[d..], i, e) {
      assert forall k :: d + i + 2 <= k < d + e - 1 ==> s[k] == s[d..][k - d];
    }
  }

  lemma MatchEndShifts(s: string, d: nat, i: nat)
    requires d + i <= |s|
    ensures MatchEnd(s[d..], i).Some? <==> MatchEnd(s, d + i).Some?
    ensures MatchEnd(s[d..], i).Some? ==> d + MatchEnd(s[d..], i).value == MatchEnd(s, d + i).value
  {
    if MatchEnd(s[d..], i).Some? {
      var e := MatchEnd(s[d..], i).value;
      MatchShifts(s, d, i, e);
      MatchEndIff(s, d + i, d + e);
    }
    if MatchEnd(s, d + i).Some? {
      var e := MatchEnd(s, d + i).value;
      MatchShifts(s, d, i, e - d);
      MatchEndIff(s[d..], i, e - d);
    }
  }

  /** Scanning from a position is scanning the rest of the text. */
  lemma {:induction false} TokeniseShifts(s: string, d: nat, i: nat)
    requires d + i <= |s|
    ensures Tokenise(s[d..], i) == Tokenise(s, d + i)
    decreases |s| - d - i
  {
    if d + i < |s| {
      MatchEndShifts(s, d, i);
      var e := MatchEnd(s[d..], i);
      if e.Some? {
        MatchShifts(s, d, i, e.value);
        TokeniseShifts(s, d, e.value);
      } else {
        TokeniseShifts(s, d, i + 1);
      }
    }
  }

  /** A match before a dollar sign ends before it, so it is a match of the text up to there as well. */
  lemma MatchEndBefore(s: string, j: nat, i: nat)
    requires j < i < |s| && s[i] == '$'
    ensures MatchEnd(s, j) == MatchEnd(s[..i], j)
  {
    if MatchEnd(s, j).Some? {
      var e := MatchEnd(s, j).value;
      assert e <= i;
      assert Matches(s[..i], j, e);
      MatchEndIff(s[..i], j, e);
    }
    if MatchEnd(s[..i], j).Some? {
      var e := MatchEnd(s[..i], j).value;
      assert Matches(s, j, e) by {
        assert forall k :: j + 2 <= k < e - 1 ==> s[k] == s[..i][k];
      }
      MatchEndIff(s, j, e);
    }
  }

  lemma {:induction false} TokeniseBefore(s: string, j: nat, i: nat)
    requires j <= i < |s| && s[i] == '$'
    ensures Tokenise(s, j) == Tokenise(s[..i], j) + Tokenise(s, i)
    decreases i - j
  {
    if j < i {
      MatchEndBefore(s, j, i);
      var e := MatchEnd(s, j);
      if e.Some? {
        TokeniseBefore(s, e.value, i);
        assert NameOf(s, j, e.value) == NameOf(s[..i], j, e.value);
      } else {
        TokeniseBefore(s, j + 1, i);
      }
    }
  }

  lemma TokeniseMatch(s: string, i: nat, e: nat)
    requires Matches(s, i, e)
    ensures Tokenise(s, i) == [Var(NameOf(s, i, e))] + Tokenise(s, e)
  {
    MatchEndIff(s, i, e);
  }

  lemma TokeniseAround(s: string, i: nat, e: nat)
    requires Matches(s, i, e)
    ensures Tokenise(s, 0) == Tokenise(s[..i], 0) + [Var(NameOf(s, i, e))] + Tokenise(s[e..], 0)
  {
    var before, v := Tokenise(s[..i], 0), [Var(NameOf(s, i, e))];
    calc {
      Tokenise(s, 0);
    == { TokeniseBefore(s, 0, i); }
      before + Tokenise(s, i);
    == { TokeniseMatch(s, i, e); }
      before + (v + Tokenise(s, e));
    == { TokeniseShifts(s, e, 0); }
      before + (v + Tokenise(s[e..], 0));
    ==
      before + v + Tokenise(s[e..], 0);
    }
  }

  lemma SubstituteAround(a: seq<Token>, n: string, b: seq<Token>, env: Env)
    ensures Substitute(a + [Var(n)] + b, env) ==
      Both(Both(Substitute(a, env), Lookup(env, n)), Substitute(b, env))
  {
    SubstituteAppend(a + [Var(n)], b, env);
    SubstituteAppend(a, [Var(n)], env);
    SubstituteOne(n, env);
  }

  /**
   Single-pass semantics.  At any reference in any text, the result is the resolution of what comes
   before it, then the variable's value exactly as it is, then the resolution of what comes after it; so
   a value is never scanned, neither by itself nor together with its surroundings.
   */
  lemma NotRescanned(s: string, i: nat, e: nat, env: Env)
    requires Matches(s, i, e)
    ensures Resolve(s, env) ==
      Both(Both(Resolve(s[..i], env), Lookup(env, NameOf(s, i, e))), Resolve(s[e..], env))
  {
    TokeniseAround(s, i, e);
    SubstituteAround(Tokenise(s[..i], 0), NameOf(s, i, e), Tokenise(s[e..], 0), env);
  }

  /** A text that is one whole reference becomes its value, even if that looks like a reference. */
  lemma WholeReference(n: string, env: Env)
    requires IsName(n) && n in env
    ensures Resolve("${" + n + "}", env) == Some(env[n])
  {
    var s := "${" + n + "}";
    assert Matches(s, 0, |s|) && NameOf(s, 0, |s|) == n;
    NotRescanned(s, 0, |s|, env);
    assert s[..0] == "" && s[|s|..] == "" && Tokenise("", 0) == [];
    assert "" + env[n] + "" == env[n];
  }

  /** A second pass would scan substituted values, so each selected remote must be resolved only once. */
  lemma SecondPassDiffers(env: Env)
    requires "A" in env && env["A"] == "${B}" && "B" in env && env["B"] == "x"
    ensures Resolve("${A}", env) == Some("${B}") && Resolve("${B}", env) == Some("x")
  {
    WholeReference("A", env);
    WholeReference("B", env);
    assert "${" + "A" + "}" == "${A}" && "${" + "B" + "}" == "${B}";
  }

  /** What the scan will return, given what it has produced and the tokens that remain. */
  function Pending(allSet: bool, out: string, rest: Option<string>): Option<string> {
    if allSet && rest.Some? then Some(out + rest.value) else None
  }

  lemma PendingNext(s: string, i: nat, env: Env, allSet: bool, out: string)
    requires i < |s|
    ensures var m := MatchEnd(s, i);
      Pending(allSet, out, Substitute(Tokenise(s, i), env)) ==
        if m.None? then Pending(allSet, out + [s[i]], Substitute(Tokenise(s, i + 1), env))
        else if NameOf(s, i, m.value) in env then
          Pending(allSet, out + env[NameOf(s, i, m.value)], Substitute(Tokenise(s, m.value), env))
        else Pending(false, out, Substitute(Tokenise(s, m.value), env))
  {
    var m := MatchEnd(s, i);
    var next := if m.Some? then m.value else i + 1;
    var rest := Substitute(Tokenise(s, next), env);
    assert Tokenise(s, i)[1..] == Tokenise(s, next);
    if rest.Some? {
      assert out + ([s[i]] + rest.value) == out + [s[i]] + rest.value;
      if m.Some? && NameOf(s, i, m.value) in env {
        var v := env[NameOf(s, i, m.value)];
        assert out + (v + rest.value) == out + v + rest.value;
      }
    }
  }

  /** The scanning loop of resolveRequired and resolveOptional, which differ only in how they report. */
  method Scan(s: string, env: Env) returns (r: Option<string>)
    ensures r == Resolve(s, env)
  {
    var out: string := [];
    var allSet := true;
    var i := 0;
    while i < |s|
      invariant i <= |s|
      invariant Pending(allSet, out, Substitute(Tokenise(s, i), env)) == Pending(true, [], Resolve(s, env))
    {
      PendingNext(s, i, env, allSet, out);
      var e := MatchEnd(s, i);
      if e.Some? {
        var name := NameOf(s, i, e.value);
        if name in env {
          out := out + env[name];
        } else {
          allSet := false;
        }
        i := e.value;
      } else {
        out := out + [s[i]];
        i := i + 1;
      }
    }
    assert out + [] == out;
    assert Resolve(s, env).Some? ==> [] + Resolve(s, env).value == Resolve(s, env).value;
    return if allSet then Some(out) else None;
  }

  // ---- Remotes ----

  /** The credential fields of one remote, resolved; empty fields are left alone. */
  function ResolvedRemote(r: Remote, env: Env): Option<Remote> {
    var id := if r.accessKeyId == "" then Some("") else Resolve(r.accessKeyId, env);
    var key := if r.secretAccessKey == "" then Some("") else Resolve(r.secretAccessKey, env);
    if id.Some? && key.Some? then Some(r.(accessKeyId := id.value, secretAccessKey := key.value)) else None
  }

  method ResolveRemoteSecrets(r: Remote, env: Env) returns (resolved: Option<Remote>)
    ensures resolved == ResolvedRemote(r, env)
    ensures resolved.Some? ==>
      && (if r.accessKeyId == "" then resolved.value.accessKeyId == ""
          else Resolve(r.accessKeyId, env) == Some(resolved.value.accessKeyId))
      && (if r.secretAccessKey == "" then resolved.value.secretAccessKey == ""
          else Resolve(r.secretAccessKey, env) == Some(resolved.value.secretAccessKey))
      && resolved.value.(accessKeyId := r.accessKeyId, secretAccessKey := r.secretAccessKey) == r
    ensures resolved.None? <==>
      || (r.accessKeyId != "" && Resolve(r.accessKeyId, env).None?)
      || (r.secretAccessKey != "" && Resolve(r.secretAccessKey, env).None?)
  {
    var x := r;
    if r.accessKeyId != "" {
      var v := Scan(r.accessKeyId, env);
      if v.None? {
        return None;
      }
      x := x.(accessKeyId := v.value);
    }
    if r.secretAccessKey != "" {
      var v := Scan(r.secretAccessKey, env);
      if v.None? {
        return None;
      }
      x := x.(secretAccessKey := v.value);
    }
    return Some(x);
  }

  /** Some selected name finds remote i. */
  predicate Selected(remotes: seq<Remote>, names: seq<string>, i: nat) {
    exists n :: n in names && FindRemote(remotes, n) == Some(i)
  }

  predicate SameNames(a: seq<Remote>, b: seq<Remote>) {
    |a| == |b| && forall i :: 0 <= i < |a| ==> a[i].name == b[i].name
  }

  lemma FindSame(a: seq<Remote>, b: seq<Remote>, n: string)
    requires SameNames(a, b)
    ensures FindRemote(a, n) == FindRemote(b, n)
  {
  }

  /**
   For any list of names, repeated or not: on success every selected remote has been resolved exactly
   once, from its original text, and every other remote is untouched; it fails iff some name is unknown
   or some selected remote mentions a variable that is not set.
   */
  method ResolveSelectedRemoteSecrets(cfg: Config, names: seq<string>, env: Env) returns (ok: bool)
    modifies cfg`remotes
    ensures SameNames(old(cfg.remotes), cfg.remotes)
    ensures forall i: nat :: i < |cfg.remotes| ==>
      cfg.remotes[i] == old(cfg.remotes)[i] || Some(cfg.remotes[i]) == ResolvedRemote(old(cfg.remotes)[i], env)
    ensures ok <==> forall n :: n in names ==>
      FindRemote(old(cfg.remotes), n).Some? &&
      ResolvedRemote(old(cfg.remotes)[FindRemote(old(cfg.remotes), n).value], env).Some?
    ensures ok ==> forall i: nat :: i < |cfg.remotes| ==>
      Some(cfg.remotes[i]) == if Selected(old(cfg.remotes), names, i) then ResolvedRemote(old(cfg.remotes)[i], env)
                              else Some(old(cfg.remotes)[i])
  {
    ghost var before := cfg.remotes;
    var seen: set<string> := {};
    for k := 0 to |names|
      invariant SameNames(before, cfg.remotes)
      invariant seen == set n | n in names[..k]
      invariant forall n :: n in seen ==>
        FindRemote(before, n).Some? && ResolvedRemote(before[FindRemote(before, n).value], env).Some?
      invariant forall i: nat :: i < |before| ==>
        Some(cfg.remotes[i]) == if before[i].name in seen && FindRemote(before, before[i].name) == Some(i)
                                then ResolvedRemote(before[i], env) else Some(before[i])
    {
      assert names[..k + 1] == names[..k] + [names[k]];
      var name := names[k];
      if name in seen {
        continue;
      }
      FindSame(before, cfg.remotes, name);
      var found := FindRemote(cfg.remotes, name);
      if found.None? {
        return false;
      }
      assert cfg.remotes[found.value] == before[found.value];
      var resolved := ResolveRemoteSecrets(cfg.remotes[found.value], env);
      if resolved.None? {
        return false;
      }
      cfg.remotes := cfg.remotes[found.value := resolved.value];
      seen := seen + {name};
    }
    assert names[..|names|] == names;
    forall i: nat | i < |before|
      ensures Selected(before, names, i) <==> before[i].name in seen && FindRemote(before, before[i].name) == Some(i)
    {
    }
    ok := true;
  }

  // ---- Notifications ----

  function ResolvedUrl(url: string, env: Env): string {
    if url == "" || Resolve(url, env).None? then "" else Resolve(url, env).value
  }

  /** The headers whose values resolve, resolved; the others are dropped. */
  function ResolvedHeaders(headers: map<string, string>, env: Env): map<string, string> {
    map k | k in headers && Resolve(headers[k], env).Some? :: Resolve(headers[k], env).value
  }

  method ResolveUrl(url: string, env: Env) returns (r: string)
    ensures r == ResolvedUrl(url, env)
  {
    r := url;
    if url != "" {
      var v := Scan(url, env);
      r := if v.None? then "" else v.value;
    }
  }

  /** The header map is updated while it is iterated, in any order, with one result. */
  method ResolveNotificationSecrets(cfg: Config, env: Env)
    modifies cfg`notifications
    ensures cfg.notifications == Notifications(
      ResolvedUrl(old(cfg.notifications.successUrl), env), ResolvedUrl(old(cfg.notifications.failureUrl), env),
      ResolvedHeaders(old(cfg.notifications.headers), env))
  {
    var success := ResolveUrl(cfg.notifications.successUrl, env);
    var failure := ResolveUrl(cfg.notifications.failureUrl, env);
    ghost var before := cfg.notifications.headers;
    var headers := cfg.notifications.headers;
    var todo := headers.Keys;
    while todo != {}
      invariant todo <= before.Keys
      invariant forall k :: k in headers <==> k in before && (k in todo || k in ResolvedHeaders(before, env))
      invariant forall k <- headers :: headers[k] == if k in todo then before[k] else ResolvedHeaders(before, env)[k]
      decreases todo
    {
      var key :| key in todo;
      var v := Scan(headers[key], env);
      headers := if v.None? then headers - {key} else headers[key := v.value];
      todo := todo - {key};
    }
    assert headers == ResolvedHeaders(before, env);
    cfg.notifications := Notifications(success, failure, headers);
  }
}

/** Sorting the keys of a map: the order of sort.Strings, and one result for every iteration order. */
module Sorting {

  /** The lexicographic order on strings. */
  predicate Less(a: string, b: string) {
    b != [] && (a == [] || a[0] < b[0] || (a[0] == b[0] && Less(a[1..], b[1..])))
  }

  lemma {:induction false} LessTrichotomy(a: string, b: string)
    ensures a != b ==> Less(a, b) || Less(b, a)
    ensures !(Less(a, b) && Less(b, a)) && !Less(a, a)
  {
    if a != [] {
      LessTrichotomy(a[1..], a[1..]);
      if b != [] {
        LessTrichotomy(a[1..], b[1..]);
        assert a == [a[0]] + a[1..] && b == [b[0]] + b[1..];
      }
    }
  }

  lemma {:induction false} LessTransitive(a: string, b: string, c: string)
    requires Less(a, b) && Less(b, c)
    ensures Less(a, c)
  {
    if a != [] && a[0] == b[0] == c[0] {
      LessTransitive(a[1..], b[1..], c[1..]);
    }
  }

  /** The order written out: the first difference decides, and a proper prefix comes first. */
  lemma {:induction false} LessIff(a: string, b: string)
    ensures Less(a, b) <==>
      (exists k: nat :: k <= |a| && k < |b| && a[..k] == b[..k] && (k == |a| || a[k] < b[k]))
  {
    if a == [] || b == [] {
      assert b != [] ==> a[..0] == b[..0];
    } else {
      LessIff(a[1..], b[1..]);
      if a[0] == b[0] {
        if k: nat :| k <= |a| - 1 && k < |b| - 1 && a[1..][..k] == b[1..][..k] && (k == |a| - 1 || a[1..][k] < b[1..][k]) {
          assert a[..k + 1] == [a[0]] + a[1..][..k] && b[..k + 1] == [b[0]] + b[1..][..k];
          assert k + 1 <= |a| && k + 1 < |b|;
        }
        if k: nat :| k <= |a| && k < |b| && a[..k] == b[..k] && (k == |a| || a[k] < b[k]) {
          assert k > 0;
          assert a[1..][..k - 1] == a[..k][1..] && b[1..][..k - 1] == b[..k][1..];
        }
      } else {
        assert a[..0] == b[..0];
        forall k: nat | 0 < k <= |a| && k < |b| ensures a[..k] != b[..k] {
          assert a[..k][0] != b[..k][0];
        }
      }
    }
  }

  predicate Ascending(s: seq<string>) {
    forall i, j :: 0 <= i < j < |s| ==> Less(s[i], s[j])
  }

  /** s lists the elements of the set, each once, in ascending order. */
  ghost predicate IsSorted(all: set<string>, s: seq<string>) {
    Ascending(s) && (forall x :: x in all <==> x in s)
  }

  method Insert(s: seq<string>, x: string) returns (r: seq<string>)
    requires Ascending(s) && x !in s
    ensures Ascending(r) && (forall y :: y in r <==> y in s || y == x)
  {
    var i := 0;
    while i < |s| && Less(s[i], x)
      invariant i <= |s| && forall k :: 0 <= k < i ==> Less(s[k], x)
    {
      i := i + 1;
    }
    r := s[..i] + [x] + s[i..];
    forall k | i <= k < |s| ensures Less(x, s[k]) {
      LessTrichotomy(s[i], x);
      if k > i {
        LessTransitive(x, s[i], s[k]);
      }
    }
    assert forall y :: y in s <==> y in s[..i] || y in s[i..] by {
      assert s == s[..i] + s[i..];
    }
  }

  method SortStrings(all: set<string>) returns (r: seq<string>)
    ensures IsSorted(all, r)
  {
    r := [];
    var todo := all;
    while todo != {}
      invariant todo <= all && IsSorted(all - todo, r)
      decreases todo
    {
      var x :| x in todo;
      r := Insert(r, x);
      todo := todo - {x};
    }
    assert all - todo == all;
  }

  /** However the set was enumerated, there is one sorted list of it. */
  lemma {:induction false} SortedUnique(all: set<string>, r: seq<string>, s: seq<string>)
    requires IsSorted(all, r) && IsSorted(all, s)
    ensures r == s
    decreases |r|
  {
    assert r != [] ==> r[0] in all;
    assert s != [] ==> s[0] in all;
    if r != [] {
      if r[0] != s[0] {
        var i :| 0 <= i < |s| && s[i] == r[0];
        var j :| 0 <= j < |r| && r[j] == s[0];
        LessTrichotomy(r[0], s[0]);
        assert false;
      }
      TailSorted(all, r);
      TailSorted(all, s);
      SortedUnique(all - {r[0]}, r[1..], s[1..]);
      assert r == [r[0]] + r[1..] && s == [s[0]] + s[1..];
    }
  }

  lemma TailSorted(all: set<string>, r: seq<string>)
    requires IsSorted(all, r) && r != []
    ensures IsSorted(all - {r[0]}, r[1..])
  {
    forall x ensures x in all - {r[0]} <==> x in r[1..] {
      LessTrichotomy(r[0], r[0]);
      assert x in r <==> x == r[0] || x in r[1..] by {
        assert r == [r[0]] + r[1..];
      }
      if x in r[1..] {
        var i :| 0 <= i < |r[1..]| && r[1..][i] == x;
        assert r[i + 1] == x && Less(r[0], r[i + 1]);
      }
    }
  }
}

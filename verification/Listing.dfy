/**
 Listing: the paged, filtered and sorted version query of the storage client, and the query over
 backups, remotes, filters and age on top of it.
 */
module Listing {
  import opened Base
  import opened Config
  import Sorting
  import V = Validate

  // ---- The storage client ----

  /** One row of a ListObjectVersions page; a missing timestamp is 0. */
  datatype Version = Version(key: string, id: string, modified: int, size: int)

  /** A page, or an error in its place. */
  type Page = Option<seq<Version>>

  function Rows(pages: seq<Page>): seq<Version> {
    if pages == [] then [] else (if pages[0].Some? then pages[0].value else []) + Rows(pages[1..])
  }

  function OfKey(rows: seq<Version>, key: string): seq<Version> {
    if rows == [] then [] else (if rows[0].key == key then [rows[0]] else []) + OfKey(rows[1..], key)
  }

  predicate NewestFirst(vs: seq<Version>) {
    forall i, j :: 0 <= i < j < |vs| ==> vs[i].modified >= vs[j].modified
  }

  lemma {:induction false} OfKeyAppend(a: seq<Version>, b: seq<Version>, key: string)
    ensures OfKey(a + b, key) == OfKey(a, key) + OfKey(b, key)
  {
    if a == [] {
      assert a + b == b;
    } else {
      var first := if a[0].key == key then [a[0]] else [];
      assert (a + b)[0] == a[0] && (a + b)[1..] == a[1..] + b;
      OfKeyAppend(a[1..], b, key);
      assert first + (OfKey(a[1..], key) + OfKey(b, key)) == first + OfKey(a[1..], key) + OfKey(b, key);
    }
  }

  lemma OfKeyNext(rows: seq<Version>, j: nat, key: string)
    requires j < |rows|
    ensures OfKey(rows[..j + 1], key) == OfKey(rows[..j], key) + if rows[j].key == key then [rows[j]] else []
  {
    assert rows[..j + 1] == rows[..j] + [rows[j]];
    OfKeyAppend(rows[..j], [rows[j]], key);
    assert [rows[j]][1..] == [];
  }

  lemma {:induction false} RowsAppend(a: seq<Page>, b: seq<Page>)
    ensures Rows(a + b) == Rows(a) + Rows(b)
  {
    if a == [] {
      assert a + b == b;
    } else {
      assert (a + b)[1..] == a[1..] + b;
      RowsAppend(a[1..], b);
    }
  }

  lemma RowsNext(pages: seq<Page>, i: nat)
    requires i < |pages| && pages[i].Some?
    ensures Rows(pages[..i + 1]) == Rows(pages[..i]) + pages[i].value
  {
    assert pages[..i + 1] == pages[..i] + [pages[i]];
    RowsAppend(pages[..i], [pages[i]]);
    assert [pages[i]][1..] == [];
    assert pages[i].value + [] == pages[i].value;
  }

  lemma {:induction false} OfKeyHasKey(rows: seq<Version>, key: string)
    ensures forall v :: v in OfKey(rows, key) <==> v in rows && v.key == key
  {
    if rows != [] {
      OfKeyHasKey(rows[1..], key);
      assert rows == [rows[0]] + rows[1..];
    }
  }

  /** sort.Slice by LastModified, as any function that sorts: ties come out in any fixed way. */
  ghost predicate SortsByTime(sorter: seq<Version> -> seq<Version>) {
    forall vs: seq<Version> :: NewestFirst(sorter(vs)) && multiset(sorter(vs)) == multiset(vs)
  }

  predicate PagesOk(pages: seq<Page>, n: nat)
    requires n <= |pages|
  {
    forall i :: 0 <= i < n ==> pages[i].Some?
  }

  /** An error iff some page fails; otherwise the rows of exactly this key, in sorted order. */
  method ListVersions(pages: seq<Page>, key: string, sorter: seq<Version> -> seq<Version>)
    returns (r: Option<seq<Version>>)
    ensures r == if PagesOk(pages, |pages|) then Some(sorter(OfKey(Rows(pages), key))) else None
  {
    var versions: seq<Version> := [];
    for i := 0 to |pages|
      invariant PagesOk(pages, i)
      invariant versions == OfKey(Rows(pages[..i]), key)
    {
      if pages[i].None? {
        return None;
      }
      var page := pages[i].value;
      RowsNext(pages, i);
      OfKeyAppend(Rows(pages[..i]), page, key);
      ghost var before := versions;
      for j := 0 to |page|
        invariant versions == before + OfKey(page[..j], key)
      {
        OfKeyNext(page, j, key);
        if page[j].key != key {
          continue;
        }
        versions := versions + [page[j]];
      }
      assert page[..|page|] == page;
    }
    assert pages[..|pages|] == pages;
    r := Some(sorter(versions));
  }

  lemma RowsOfOne(p: seq<Version>)
    ensures Rows([Some(p)]) == p
  {
    assert [Some(p)][1..] == [];
    assert p + [] == p;
  }

  /** How rows are split into pages does not matter: moving a page boundary changes no row. */
  lemma PagingIrrelevant(front: seq<Page>, p1: seq<Version>, p2: seq<Version>, back: seq<Page>)
    ensures Rows(front + [Some(p1), Some(p2)] + back) == Rows(front + [Some(p1 + p2)] + back)
  {
    var two: seq<Page>, one: seq<Page> := [Some(p1), Some(p2)], [Some(p1 + p2)];
    RowsOfOne(p1);
    RowsOfOne(p2);
    RowsOfOne(p1 + p2);
    RowsAppend([Some(p1)], [Some(p2)]);
    assert two == [Some(p1)] + [Some(p2)];
    RowsAppend(front, two);
    RowsAppend(front, one);
    RowsAppend(front + two, back);
    RowsAppend(front + one, back);
  }

  /** Newest first, exactly the rows of this key; the key that shares its prefix is never mixed in. */
  lemma VersionsOfExactKey(e: BackupEntry, ns: string, rows: seq<Version>, sorter: seq<Version> -> seq<Version>)
    requires SortsByTime(sorter)
    ensures var vs := sorter(OfKey(rows, e.DerivedKey(ns)));
      && NewestFirst(vs)
      && multiset(vs) == multiset(OfKey(rows, e.DerivedKey(ns)))
      && (forall v :: v in vs <==> v in rows && v.key == e.DerivedKey(ns))
      && (forall v :: v in vs ==> v.key != e.(seal := !e.seal).DerivedKey(ns))
  {
    var key := e.DerivedKey(ns);
    SortedRows(rows, key, sorter);
    assert |key| != |e.(seal := !e.seal).DerivedKey(ns)|;
  }

  lemma SortedRows(rows: seq<Version>, key: string, sorter: seq<Version> -> seq<Version>)
    requires SortsByTime(sorter)
    ensures forall v :: v in sorter(OfKey(rows, key)) <==> v in rows && v.key == key
  {
    var ofKey := OfKey(rows, key);
    OfKeyHasKey(rows, key);
    forall v ensures v in sorter(ofKey) <==> v in ofKey {
      assert v in sorter(ofKey) <==> v in multiset(sorter(ofKey));
      assert v in ofKey <==> v in multiset(ofKey);
    }
  }

  // ---- The query ----

  /** A HEAD reply; `createdAt` is the metadata timestamp when present and well-formed. */
  datatype Head = NotFound | HeadError | Found(length: int, version: string, createdAt: Option<int>, modified: int)

  datatype Client = Client(head: (string, string) -> Head, pages: string -> seq<Page>)

  datatype Entry = Entry(backup: string, remote: string, key: string, createdAt: int, size: int, version: string)

  datatype Options = Options(
    maxAge: int, allVersions: bool, now: int, sorter: seq<Version> -> seq<Version>)

  function CreatedAt(h: Head): int
    requires h.Found?
  {
    if h.createdAt.Some? then h.createdAt.value else h.modified
  }

  predicate Recent(h: Head, o: Options)
    requires h.Found?
  {
    !(o.maxAge > 0 && o.now - CreatedAt(h) > o.maxAge)
  }

  /** Where to look: one configured (backup, remote) pair. */
  datatype Spot = Spot(backup: string, remote: string, key: string)

  function EntryOf(p: Spot, h: Head): Entry
    requires h.Found?
  {
    Entry(p.backup, p.remote, p.key, CreatedAt(h), h.length, h.version)
  }

  /** What one HEAD contributes. */
  function Contribution(p: Spot, h: Head, o: Options): seq<Entry> {
    if h.Found? && Recent(h, o) then [EntryOf(p, h)] else []
  }

  function Contributions(c: Client, p: Spot, vs: seq<Version>, n: nat, o: Options): seq<Entry>
    requires n <= |vs|
  {
    if n == 0 then [] else Contributions(c, p, vs, n - 1, o) + Contribution(p, c.head(p.key, vs[n - 1].id), o)
  }

  predicate HeadsOk(c: Client, key: string, vs: seq<Version>, n: nat)
    requires n <= |vs|
  {
    forall i :: 0 <= i < n ==> !c.head(key, vs[i].id).HeadError?
  }

  /**
   The declarative answer for one pair: the latest version if it passes the age filter, or else every
   version of exactly this key that does, newest first; None for an error other than "not found".
   */
  function Answer(c: Client, p: Spot, o: Options): Option<seq<Entry>> {
    if !o.allVersions then
      var h := c.head(p.key, "");
      if h.HeadError? then None else Some(Contribution(p, h, o))
    else if PagesOk(c.pages(p.key), |c.pages(p.key)|) then
      var vs := o.sorter(OfKey(Rows(c.pages(p.key)), p.key));
      if HeadsOk(c, p.key, vs, |vs|) then Some(Contributions(c, p, vs, |vs|, o)) else None
    else None
  }

  /**
   e is what the reply h gives for the pair: its date is the recorded one, or else the time of the last
   modification, and it is not older than the age asked for, if one is.
   */
  ghost predicate Shows(p: Spot, h: Head, o: Options, e: Entry) {
    && h.Found?
    && e.backup == p.backup && e.remote == p.remote && e.key == p.key
    && e.size == h.length && e.version == h.version
    && (match h.createdAt
        case Some(t) => e.createdAt == t
        case None => e.createdAt == h.modified)
    && (o.maxAge > 0 ==> o.now - e.createdAt <= o.maxAge)
  }

  lemma ContributionShows(p: Spot, h: Head, o: Options)
    ensures |Contribution(p, h, o)| <= 1
    ensures forall e :: e in Contribution(p, h, o) <==> Shows(p, h, o, e)
  {
  }

  method HeadLatest(c: Client, p: Spot, o: Options) returns (r: Option<seq<Entry>>)
    requires !o.allVersions
    ensures r == Answer(c, p, o)
    ensures r.None? <==> c.head(p.key, "").HeadError?
    ensures r.Some? ==> |r.value| <= 1 && forall e :: e in r.value <==> Shows(p, c.head(p.key, ""), o, e)
  {
    ContributionShows(p, c.head(p.key, ""), o);
    var h := c.head(p.key, "");
    if h.HeadError? {
      return None;
    }
    if h.NotFound? || (o.maxAge > 0 && o.now - CreatedAt(h) > o.maxAge) {
      return Some([]);
    }
    return Some([EntryOf(p, h)]);
  }

  /** One HEAD for each listed version, in their order. */
  method HeadEach(c: Client, p: Spot, vs: seq<Version>, o: Options) returns (r: Option<seq<Entry>>)
    ensures r == if HeadsOk(c, p.key, vs, |vs|) then Some(Contributions(c, p, vs, |vs|, o)) else None
  {
    var entries: seq<Entry> := [];
    for i := 0 to |vs|
      invariant entries == Contributions(c, p, vs, i, o) && HeadsOk(c, p.key, vs, i)
    {
      var h := c.head(p.key, vs[i].id);
      if h.HeadError? {
        return None;
      }
      assert Contributions(c, p, vs, i + 1, o) == entries + Contribution(p, h, o);
      if h.NotFound? || (o.maxAge > 0 && o.now - CreatedAt(h) > o.maxAge) {
        assert entries + [] == entries;
        continue;
      }
      entries := entries + [EntryOf(p, h)];
    }
    return Some(entries);
  }

  method AllVersions(c: Client, p: Spot, o: Options) returns (r: Option<seq<Entry>>)
    requires o.allVersions
    ensures r == Answer(c, p, o)
  {
    var listed := ListVersions(c.pages(p.key), p.key, o.sorter);
    if listed.None? {
      return None;
    }
    r := HeadEach(c, p, listed.value, o);
  }

  /** The inputs of a list command. */
  datatype Query = Query(
    ns: string, defaults: seq<string>, backups: map<string, BackupEntry>, entryFilter: string,
    remoteFilter: string, clients: map<string, Client>, options: Options)
  {
    predicate Visits(name: string, remote: string)
      requires name in backups
    {
      && (entryFilter == "" || name == entryFilter) && (remoteFilter == "" || remote == remoteFilter)
      && remote in clients
    }
  }

  function RemotesOf(q: Query, name: string): seq<string>
    requires name in q.backups
  {
    q.backups[name].ResolvedRemotes(q.defaults)
  }

  /** The pairs to visit among the first n remotes of a backup, in order. */
  function SpotsOf(q: Query, name: string, n: nat): seq<Spot>
    requires name in q.backups && n <= |RemotesOf(q, name)|
  {
    if n == 0 then []
    else
      var r := RemotesOf(q, name)[n - 1];
      SpotsOf(q, name, n - 1) + if q.Visits(name, r) then [Spot(name, r, q.backups[name].DerivedKey(q.ns))] else []
  }

  predicate Known(q: Query, names: seq<string>) {
    forall k :: 0 <= k < |names| ==> names[k] in q.backups
  }

  /** The pairs to visit among the first n backups, in order. */
  function Spots(q: Query, names: seq<string>, n: nat): seq<Spot>
    requires n <= |names| && Known(q, names)
  {
    if n == 0 then [] else Spots(q, names, n - 1) + SpotsOf(q, names[n - 1], |RemotesOf(q, names[n - 1])|)
  }

  /** What one visited pair contributes. */
  function AnswerAt(q: Query, p: Spot): Option<seq<Entry>> {
    if p.remote in q.clients then Answer(q.clients[p.remote], p, q.options) else None
  }

  predicate Broken(q: Query, spots: seq<Spot>) {
    exists p :: p in spots && AnswerAt(q, p).None?
  }

  /** The first n answers, one after the other. */
  function Joined(answers: seq<Option<seq<Entry>>>, n: nat): seq<Entry>
    requires n <= |answers|
  {
    if n == 0 then []
    else Joined(answers, n - 1) + if answers[n - 1].Some? then answers[n - 1].value else []
  }

  function Answers(q: Query, spots: seq<Spot>): seq<Option<seq<Entry>>> {
    seq(|spots|, i requires 0 <= i < |spots| => AnswerAt(q, spots[i]))
  }

  /** The answers of the first n spots, one after the other. */
  function Collect(q: Query, spots: seq<Spot>, n: nat): seq<Entry>
    requires n <= |spots|
  {
    Joined(Answers(q, spots), n)
  }

  lemma {:induction false} JoinedExactly(answers: seq<Option<seq<Entry>>>, n: nat, e: Entry)
    requires n <= |answers|
    ensures e in Joined(answers, n) <==> exists k :: 0 <= k < n && answers[k].Some? && e in answers[k].value
  {
    if n > 0 {
      JoinedExactly(answers, n - 1, e);
    }
  }

  lemma {:induction false} CollectSame(q: Query, a: seq<Spot>, b: seq<Spot>, n: nat)
    requires n <= |a| && a <= b
    ensures Collect(q, a, n) == Collect(q, b, n)
  {
    if n > 0 {
      CollectSame(q, a, b, n - 1);
    }
  }

  /** The declarative query: an error iff some visited pair fails, or else all answers in order. */
  function Listed(q: Query, spots: seq<Spot>): Option<seq<Entry>> {
    if Broken(q, spots) then None else Some(Collect(q, spots, |spots|))
  }

  lemma ListedNext(q: Query, spots: seq<Spot>, p: Spot)
    requires Listed(q, spots).Some?
    ensures Listed(q, spots + [p]) ==
      if AnswerAt(q, p).None? then None else Some(Listed(q, spots).value + AnswerAt(q, p).value)
  {
    CollectSame(q, spots, spots + [p], |spots|);
    assert (spots + [p])[|spots|] == p;
  }

  method QueryOne(c: Client, p: Spot, o: Options) returns (r: Option<seq<Entry>>)
    ensures r == Answer(c, p, o)
  {
    if o.allVersions {
      r := AllVersions(c, p, o);
    } else {
      r := HeadLatest(c, p, o);
    }
  }

  lemma SpotsOfNext(q: Query, before: seq<Spot>, name: string, j: nat)
    requires name in q.backups && j < |RemotesOf(q, name)|
    ensures var r := RemotesOf(q, name)[j]; var spots := before + SpotsOf(q, name, j);
      before + SpotsOf(q, name, j + 1) ==
        if q.Visits(name, r) then spots + [Spot(name, r, q.backups[name].DerivedKey(q.ns))] else spots
  {
  }

  /** The inner loop: the remotes of one backup, appending to the entries found so far. */
  method ListBackup(q: Query, name: string, ghost before: seq<Spot>, entries0: seq<Entry>)
    returns (r: Option<seq<Entry>>)
    requires name in q.backups && Listed(q, before) == Some(entries0)
    ensures r == Listed(q, before + SpotsOf(q, name, |RemotesOf(q, name)|))
  {
    var key := q.backups[name].DerivedKey(q.ns);
    var remotes := RemotesOf(q, name);
    var entries := entries0;
    assert before + [] == before;
    for j := 0 to |remotes|
      invariant Listed(q, before + SpotsOf(q, name, j)) == Some(entries)
    {
      ghost var spots := before + SpotsOf(q, name, j);
      SpotsOfNext(q, before, name, j);
      if !q.Visits(name, remotes[j]) {
        continue;
      }
      var p := Spot(name, remotes[j], key);
      ListedNext(q, spots, p);
      var one := QueryOne(q.clients[remotes[j]], p, q.options);
      if one.None? {
        SpotsOfPrefix(q, name, j + 1, |remotes|);
        BrokenPrefix(q, spots + [p], before + SpotsOf(q, name, |remotes|));
        return None;
      }
      entries := entries + one.value;
    }
    r := Some(entries);
  }

  lemma {:induction false} SpotsOfPrefix(q: Query, name: string, j: nat, n: nat)
    requires name in q.backups && j <= n <= |RemotesOf(q, name)|
    ensures SpotsOf(q, name, j) <= SpotsOf(q, name, n)
  {
    if j < n {
      SpotsOfPrefix(q, name, j, n - 1);
    }
  }

  lemma {:induction false} SpotsPrefix(q: Query, names: seq<string>, i: nat, n: nat)
    requires i <= n <= |names| && Known(q, names)
    ensures Spots(q, names, i) <= Spots(q, names, n)
  {
    if i < n {
      SpotsPrefix(q, names, i, n - 1);
    }
  }

  /** The outer loop over backup names. */
  method ListNames(q: Query, names: seq<string>) returns (r: Option<seq<Entry>>)
    requires Known(q, names)
    ensures r == Listed(q, Spots(q, names, |names|))
  {
    var entries: seq<Entry> := [];
    for i := 0 to |names|
      invariant Listed(q, Spots(q, names, i)) == Some(entries)
    {
      r := ListBackup(q, names[i], Spots(q, names, i), entries);
      if r.None? {
        SpotsPrefix(q, names, i + 1, |names|);
        BrokenPrefix(q, Spots(q, names, i + 1), Spots(q, names, |names|));
        return;
      }
      entries := r.value;
    }
    r := Some(entries);
  }

  lemma BrokenPrefix(q: Query, a: seq<Spot>, b: seq<Spot>)
    requires Broken(q, a) && a <= b
    ensures Broken(q, b)
  {
    var p :| p in a && AnswerAt(q, p).None?;
    assert p in b;
  }

  /**
   The list equals the declarative query over the pairs that pass the filters and have a client, in
   order of backup name and configured remote.
   */
  method List(q: Query) returns (r: Option<seq<Entry>>, names: seq<string>)
    ensures Sorting.IsSorted(q.backups.Keys, names) && Known(q, names)
    ensures r == Listed(q, Spots(q, names, |names|))
  {
    names := Sorting.SortStrings(q.backups.Keys);
    forall k | 0 <= k < |names| ensures names[k] in q.backups {
      assert names[k] in names;
    }
    r := ListNames(q, names);
  }

  // ---- What is visited ----

  lemma {:induction false} SpotsOfExactly(q: Query, name: string, n: nat, p: Spot)
    requires name in q.backups && n <= |RemotesOf(q, name)|
    ensures p in SpotsOf(q, name, n) <==>
      && p.backup == name && p.key == q.backups[name].DerivedKey(q.ns)
      && p.remote in RemotesOf(q, name)[..n] && q.Visits(name, p.remote)
  {
    if n > 0 {
      SpotsOfExactly(q, name, n - 1, p);
      assert RemotesOf(q, name)[..n] == RemotesOf(q, name)[..n - 1] + [RemotesOf(q, name)[n - 1]];
    }
  }

  lemma {:induction false} SpotsExactlyUpTo(q: Query, names: seq<string>, n: nat, p: Spot)
    requires n <= |names| && Known(q, names)
    ensures p in Spots(q, names, n) <==>
      && p.backup in names[..n] && p.key == q.backups[p.backup].DerivedKey(q.ns)
      && p.remote in RemotesOf(q, p.backup) && q.Visits(p.backup, p.remote)
  {
    if n > 0 {
      var name := names[n - 1];
      SpotsExactlyUpTo(q, names, n - 1, p);
      SpotsOfExactly(q, name, |RemotesOf(q, name)|, p);
      assert RemotesOf(q, name)[..|RemotesOf(q, name)|] == RemotesOf(q, name);
      assert names[..n] == names[..n - 1] + [name];
    }
  }

  /** Exactly the configured pairs that pass the filters and have a client are visited. */
  lemma SpotsExactly(q: Query, names: seq<string>, p: Spot)
    requires Sorting.IsSorted(q.backups.Keys, names)
    requires Known(q, names)
    ensures p in Spots(q, names, |names|) <==>
      && p.backup in q.backups && p.key == q.backups[p.backup].DerivedKey(q.ns)
      && p.remote in q.backups[p.backup].ResolvedRemotes(q.defaults) && p.remote in q.clients
      && (q.entryFilter == "" || p.backup == q.entryFilter) && (q.remoteFilter == "" || p.remote == q.remoteFilter)
  {
    SpotsExactlyUpTo(q, names, |names|, p);
    assert names[..|names|] == names;
  }

  predicate DistinctSpots(spots: seq<Spot>) {
    forall i, j :: 0 <= i < j < |spots| ==> spots[i] != spots[j]
  }

  predicate DistinctRemotes(q: Query) {
    forall name <- q.backups :: forall i, j :: 0 <= i < j < |RemotesOf(q, name)| ==>
      RemotesOf(q, name)[i] != RemotesOf(q, name)[j]
  }

  /** Validation sees to it that no backup names a remote twice. */
  lemma ValidatedDistinctRemotes(q: Query, remotes: seq<Remote>)
    requires V.GoodBackups(q.backups, q.ns, q.defaults, V.Names(remotes))
    ensures DistinctRemotes(q)
  {
    forall name <- q.backups ensures V.Distinct(RemotesOf(q, name)) {
      assert V.GoodEntry(name, q.backups[name], q.defaults, V.Names(remotes));
    }
  }

  lemma {:induction false} SpotsOfDistinct(q: Query, name: string, n: nat)
    requires name in q.backups && n <= |RemotesOf(q, name)| && DistinctRemotes(q)
    ensures DistinctSpots(SpotsOf(q, name, n))
  {
    if n > 0 {
      SpotsOfDistinct(q, name, n - 1);
      var r := RemotesOf(q, name)[n - 1];
      forall p | p in SpotsOf(q, name, n - 1) ensures p.remote != r {
        SpotsOfExactly(q, name, n - 1, p);
      }
    }
  }

  /** When no backup names a remote twice, no pair is visited twice. */
  lemma {:induction false} SpotsDistinct(q: Query, names: seq<string>, n: nat)
    requires n <= |names| && Sorting.IsSorted(q.backups.Keys, names) && DistinctRemotes(q)
    requires Known(q, names)
    ensures DistinctSpots(Spots(q, names, n))
  {
    if n > 0 {
      var name := names[n - 1];
      SpotsDistinct(q, names, n - 1);
      SpotsOfDistinct(q, name, |RemotesOf(q, name)|);
      forall p | p in Spots(q, names, n - 1) ensures p.backup != name {
        SpotsExactlyUpTo(q, names, n - 1, p);
        var k :| 0 <= k < n - 1 && names[k] == p.backup;
        Sorting.LessTrichotomy(names[k], name);
      }
      forall p | p in SpotsOf(q, name, |RemotesOf(q, name)|) ensures p.backup == name {
        SpotsOfExactly(q, name, |RemotesOf(q, name)|, p);
      }
    }
  }

  /** Without all versions a pair contributes at most one entry, its own latest one. */
  lemma LatestOnlyAtMostOne(c: Client, p: Spot, o: Options)
    requires !o.allVersions && Answer(c, p, o).Some?
    ensures var part := Answer(c, p, o).value;
      && |part| <= 1 && (forall e :: e in part ==> e.backup == p.backup && e.remote == p.remote && e.key == p.key)
      && (forall e :: e in part <==> Shows(p, c.head(p.key, ""), o, e))
  {
    ContributionShows(p, c.head(p.key, ""), o);
  }

  lemma {:induction false} ContributionsExactly(c: Client, p: Spot, vs: seq<Version>, n: nat, o: Options, e: Entry)
    requires n <= |vs|
    ensures e in Contributions(c, p, vs, n, o) <==>
      exists i :: 0 <= i < n && Shows(p, c.head(p.key, vs[i].id), o, e)
  {
    if n > 0 {
      ContributionsExactly(c, p, vs, n - 1, o, e);
      ContributionShows(p, c.head(p.key, vs[n - 1].id), o);
    }
  }

  /** With all versions a pair contributes exactly the versions of its key that pass the age filter. */
  lemma AllVersionsExactly(c: Client, p: Spot, o: Options, e: Entry)
    requires o.allVersions && Answer(c, p, o).Some? && SortsByTime(o.sorter)
    ensures e in Answer(c, p, o).value <==>
      exists v :: v in Rows(c.pages(p.key)) && v.key == p.key && Shows(p, c.head(p.key, v.id), o, e)
  {
    var rows := Rows(c.pages(p.key));
    var vs := o.sorter(OfKey(rows, p.key));
    SortedRows(rows, p.key, o.sorter);
    ContributionsExactly(c, p, vs, |vs|, o, e);
    forall v | v in rows && v.key == p.key ensures exists i :: 0 <= i < |vs| && vs[i] == v {
      assert v in vs;
    }
  }

  // ---- The list as a whole ----

  ghost predicate SamePair(p: Spot, e: Entry) {
    p.backup == e.backup && p.remote == e.remote
  }

  /** An entry is listed iff some configured pair that passes the filters contributes it. */
  lemma ListedExactly(q: Query, names: seq<string>, e: Entry)
    requires Sorting.IsSorted(q.backups.Keys, names) && Known(q, names)
    requires Listed(q, Spots(q, names, |names|)).Some?
    ensures e in Listed(q, Spots(q, names, |names|)).value <==>
      exists p: Spot ::
        && p.backup in q.backups && p.key == q.backups[p.backup].DerivedKey(q.ns)
        && p.remote in q.backups[p.backup].ResolvedRemotes(q.defaults) && p.remote in q.clients
        && (q.entryFilter == "" || p.backup == q.entryFilter) && (q.remoteFilter == "" || p.remote == q.remoteFilter)
        && AnswerAt(q, p).Some? && e in AnswerAt(q, p).value
  {
    var spots := Spots(q, names, |names|);
    JoinedExactly(Answers(q, spots), |spots|, e);
    assert forall k :: 0 <= k < |spots| ==> Answers(q, spots)[k] == AnswerAt(q, spots[k]);
    forall p: Spot ensures p in spots <==>
      && p.backup in q.backups && p.key == q.backups[p.backup].DerivedKey(q.ns)
      && p.remote in q.backups[p.backup].ResolvedRemotes(q.defaults) && p.remote in q.clients
      && (q.entryFilter == "" || p.backup == q.entryFilter) && (q.remoteFilter == "" || p.remote == q.remoteFilter)
    {
      SpotsExactly(q, names, p);
    }
    if k :| 0 <= k < |spots| && AnswerAt(q, spots[k]).Some? && e in AnswerAt(q, spots[k]).value {
      assert spots[k] in spots;
    }
    if p: Spot :| p in spots && AnswerAt(q, p).Some? && e in AnswerAt(q, p).value {
      var k :| 0 <= k < |spots| && spots[k] == p;
    }
  }

  predicate DistinctPairs(es: seq<Entry>) {
    forall i, j :: 0 <= i < j < |es| ==> es[i].backup != es[j].backup || es[i].remote != es[j].remote
  }

  lemma {:induction false} LatestDistinct(q: Query, spots: seq<Spot>, n: nat)
    requires n <= |spots| && !Broken(q, spots) && !q.options.allVersions
    requires forall i, j :: 0 <= i < j < |spots| ==> spots[i].backup != spots[j].backup || spots[i].remote != spots[j].remote
    ensures DistinctPairs(Collect(q, spots, n))
    ensures forall e :: e in Collect(q, spots, n) ==> exists k :: 0 <= k < n && SamePair(spots[k], e)
  {
    if n > 0 {
      LatestDistinct(q, spots, n - 1);
      assert spots[n - 1] in spots;
      var front, part := Collect(q, spots, n - 1), AnswerAt(q, spots[n - 1]).value;
      LatestOnlyAtMostOne(q.clients[spots[n - 1].remote], spots[n - 1], q.options);
      forall e, f | e in front && f in part ensures e.backup != f.backup || e.remote != f.remote {
        assert SamePair(spots[n - 1], f);
        var k :| 0 <= k < n - 1 && SamePair(spots[k], e);
      }
      var es := Collect(q, spots, n);
      assert es == front + part && |part| <= 1;
      forall i, j | 0 <= i < j < |es| ensures es[i].backup != es[j].backup || es[i].remote != es[j].remote {
        assert es[i] in front && (j == |front| ==> es[j] in part);
      }
    }
  }

  /** When no backup names a remote twice, the latest-only list has at most one entry per backup and remote. */
  lemma OneEntryPerPair(q: Query, names: seq<string>)
    requires Sorting.IsSorted(q.backups.Keys, names) && Known(q, names)
    requires DistinctRemotes(q) && !q.options.allVersions && Listed(q, Spots(q, names, |names|)).Some?
    ensures DistinctPairs(Listed(q, Spots(q, names, |names|)).value)
  {
    var spots := Spots(q, names, |names|);
    SpotsDistinct(q, names, |names|);
    forall i, j | 0 <= i < j < |spots|
      ensures spots[i].backup != spots[j].backup || spots[i].remote != spots[j].remote
    {
      SpotsExactly(q, names, spots[i]);
      SpotsExactly(q, names, spots[j]);
    }
    LatestDistinct(q, spots, |spots|);
  }

  /** For a validated configuration that is always so. */
  lemma ValidatedOneEntryPerPair(q: Query, names: seq<string>, remotes: seq<Remote>)
    requires V.GoodBackups(q.backups, q.ns, q.defaults, V.Names(remotes))
    requires Sorting.IsSorted(q.backups.Keys, names) && Known(q, names)
    ensures DistinctSpots(Spots(q, names, |names|))
    ensures !q.options.allVersions && Listed(q, Spots(q, names, |names|)).Some? ==>
      DistinctPairs(Listed(q, Spots(q, names, |names|)).value)
  {
    ValidatedDistinctRemotes(q, remotes);
    SpotsDistinct(q, names, |names|);
    if !q.options.allVersions && Listed(q, Spots(q, names, |names|)).Some? {
      OneEntryPerPair(q, names);
    }
  }
}

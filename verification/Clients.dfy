/** Which remotes a command selects, the clients built for them, and why none is ever missing. */
module Clients {
  import opened Base
  import opened Config
  import Sorting
  import V = Validate
  import L = Listing
  import U = Upload

  /** The remotes of the entries that `backup --all` runs. */
  ghost function AllModeSet(backups: map<string, BackupEntry>, defaults: seq<string>, ids: set<string>): set<string>
    requires ids <= backups.Keys
  {
    set id, r | id in ids && !backups[id].manualOnly && r in backups[id].ResolvedRemotes(defaults) :: r
  }

  method AllModeRemoteRefs(backups: map<string, BackupEntry>, defaults: seq<string>) returns (refs: seq<string>)
    ensures Sorting.IsSorted(AllModeSet(backups, defaults, backups.Keys), refs)
  {
    var found: set<string> := {};
    var todo := backups.Keys;
    while todo != {}
      invariant todo <= backups.Keys && found == AllModeSet(backups, defaults, backups.Keys - todo)
      decreases todo
    {
      var id :| id in todo;
      ghost var before := found;
      if !backups[id].manualOnly {
        var rs := backups[id].ResolvedRemotes(defaults);
        for k := 0 to |rs|
          invariant found == before + set r | r in rs[..k]
        {
          found := found + {rs[k]};
          assert rs[..k + 1] == rs[..k] + [rs[k]];
        }
        assert rs[..|rs|] == rs;
      }
      todo := todo - {id};
    }
    assert backups.Keys - todo == backups.Keys;
    refs := Sorting.SortStrings(found);
  }

  /** The remotes a list command may visit. */
  ghost function ListSet(
    backups: map<string, BackupEntry>, defaults: seq<string>, entryFilter: string, ids: set<string>): set<string>
    requires ids <= backups.Keys
  {
    set id, r | id in ids && (entryFilter == "" || id == entryFilter) && r in backups[id].ResolvedRemotes(defaults) :: r
  }

  method CollectRemoteRefs(
    backups: map<string, BackupEntry>, defaults: seq<string>, entryFilter: string, remoteFilter: string)
    returns (refs: seq<string>)
    ensures V.Distinct(refs)
    ensures forall r :: r in refs <==>
      if remoteFilter != "" then r == remoteFilter else r in ListSet(backups, defaults, entryFilter, backups.Keys)
  {
    if remoteFilter != "" {
      return [remoteFilter];
    }
    refs := [];
    var todo := backups.Keys;
    while todo != {}
      invariant todo <= backups.Keys && V.Distinct(refs)
      invariant forall r :: r in refs <==> r in ListSet(backups, defaults, entryFilter, backups.Keys - todo)
      decreases todo
    {
      var id :| id in todo;
      ghost var before := refs;
      if entryFilter == "" || id == entryFilter {
        var rs := backups[id].ResolvedRemotes(defaults);
        for k := 0 to |rs|
          invariant V.Distinct(refs)
          invariant forall r :: r in refs <==> r in before || r in rs[..k]
        {
          if rs[k] !in refs {
            refs := refs + [rs[k]];
          }
          assert rs[..k + 1] == rs[..k] + [rs[k]];
        }
        assert rs[..|rs|] == rs;
      }
      todo := todo - {id};
    }
    assert backups.Keys - todo == backups.Keys;
  }

  /**
   One client per selected remote name, each built from the configured remote of that name; an error
   iff some name is unknown or some client cannot be made.
   */
  method BuildClients(remotes: seq<Remote>, names: seq<string>, makes: Remote -> bool)
    returns (clients: Option<map<string, Remote>>)
    ensures clients.Some? <==> forall n :: n in names ==>
      FindRemote(remotes, n).Some? && makes(remotes[FindRemote(remotes, n).value])
    ensures clients.Some? ==> forall n :: n in clients.value <==> n in names
    ensures clients.Some? ==> forall n :: n in names ==>
      FindRemote(remotes, n).Some? && clients.value[n] == remotes[FindRemote(remotes, n).value]
  {
    var built: map<string, Remote> := map[];
    for k := 0 to |names|
      invariant forall n :: n in built <==> n in names[..k]
      invariant forall n :: n in built ==>
        FindRemote(remotes, n).Some? && makes(built[n]) && built[n] == remotes[FindRemote(remotes, n).value]
    {
      assert names[..k + 1] == names[..k] + [names[k]];
      if names[k] in built {
        continue;
      }
      var found := FindRemote(remotes, names[k]);
      if found.None? || !makes(remotes[found.value]) {
        assert names[k] in names;
        return None;
      }
      built := built[names[k] := remotes[found.value]];
    }
    assert names[..|names|] == names;
    clients := Some(built);
  }

  /** For a validated configuration every name an entry resolves to is a configured remote. */
  lemma ValidatedNamesAreFound(
    backups: map<string, BackupEntry>, ns: string, defaults: seq<string>, remotes: seq<Remote>, id: string, r: string)
    requires V.GoodBackups(backups, ns, defaults, V.Names(remotes))
    requires id in backups && r in backups[id].ResolvedRemotes(defaults)
    ensures FindRemote(remotes, r).Some?
  {
    assert V.GoodEntry(id, backups[id], defaults, V.Names(remotes));
    var i :| 0 <= i < |backups[id].ResolvedRemotes(defaults)| && backups[id].ResolvedRemotes(defaults)[i] == r;
    assert r in V.Names(remotes);
    var k :| 0 <= k < |V.Names(remotes)| && V.Names(remotes)[k] == r;
    assert remotes[k].name == r;
  }

  /**
   `backup --all` selects every remote of every entry it runs, and only configured ones; so when client
   building succeeds, "no client for remote" cannot happen.
   */
  lemma AllModeCovers(
    backups: map<string, BackupEntry>, ns: string, defaults: seq<string>, remotes: seq<Remote>,
    refs: seq<string>, clients: set<string>, id: string, r: string)
    requires V.GoodBackups(backups, ns, defaults, V.Names(remotes))
    requires Sorting.IsSorted(AllModeSet(backups, defaults, backups.Keys), refs)
    requires forall n :: n in clients <==> n in refs
    requires id in backups && !backups[id].manualOnly && r in backups[id].ResolvedRemotes(defaults)
    ensures r in clients && FindRemote(remotes, r).Some?
  {
    assert r in AllModeSet(backups, defaults, backups.Keys);
    ValidatedNamesAreFound(backups, ns, defaults, remotes, id, r);
  }

  /** What the backup command selects: the remotes of all entries it runs, or those of the named one. */
  ghost predicate Selects(
    backups: map<string, BackupEntry>, defaults: seq<string>, target: Option<string>, refs: seq<string>)
  {
    match target
    case None => Sorting.IsSorted(AllModeSet(backups, defaults, backups.Keys), refs)
    case Some(name) => name in backups && refs == backups[name].ResolvedRemotes(defaults)
  }

  predicate RunsEntry(backups: map<string, BackupEntry>, target: Option<string>, id: string) {
    id in backups && if target.None? then !backups[id].manualOnly else id == target.value
  }

  /**
   Whichever entries a backup command runs: after validation every remote it visits is configured, and
   when client building has succeeded every one of them has a client.
   */
  lemma BackupCovers(
    backups: map<string, BackupEntry>, ns: string, defaults: seq<string>, remotes: seq<Remote>,
    target: Option<string>, refs: seq<string>, clients: set<string>, id: string, r: string)
    requires V.GoodBackups(backups, ns, defaults, V.Names(remotes))
    requires Selects(backups, defaults, target, refs) && (forall n :: n in clients <==> n in refs)
    requires RunsEntry(backups, target, id) && r in backups[id].ResolvedRemotes(defaults)
    ensures r in clients && FindRemote(remotes, r).Some?
  {
    if target.None? {
      AllModeCovers(backups, ns, defaults, remotes, refs, clients, id, r);
    } else {
      ValidatedNamesAreFound(backups, ns, defaults, remotes, id, r);
    }
  }

  /**
   So "no client for remote" is unreachable in the upload goroutines: in every interleaving a result
   that fails belongs to an upload that failed.
   */
  lemma NoMissingClient(
    backups: map<string, BackupEntry>, ns: string, defaults: seq<string>, remotes: seq<Remote>,
    target: Option<string>, refs: seq<string>, id: string, job: U.Job, store: U.Store, acts: seq<U.Action>, i: nat)
    requires V.GoodBackups(backups, ns, defaults, V.Names(remotes))
    requires Selects(backups, defaults, target, refs) && (forall n :: n in job.clients <==> n in refs)
    requires RunsEntry(backups, target, id) && job.names == backups[id].ResolvedRemotes(defaults)
    requires U.Runs(job, U.Init(job, store), acts) && U.After(job, U.Init(job, store), acts).main.Returned?
    requires i < |job.names|
    ensures var s := U.After(job, U.Init(job, store), acts);
      && i < |s.results|
      && (U.Fell(s, i) ==> exists k :: 0 <= k < |acts| && acts[k].PutFails? && acts[k].i == i)
  {
    assert V.GoodEntry(id, backups[id], defaults, V.Names(remotes));
    forall k | 0 <= k < |job.names| ensures job.names[k] in job.clients {
      BackupCovers(backups, ns, defaults, remotes, target, refs, job.clients, id, job.names[k]);
    }
    U.FailureWasUpload(job, store, acts, i);
  }

  /** List never skips a pair silently: every pair that passes the filters has a client. */
  lemma ListCovers(q: L.Query, refs: seq<string>, name: string, r: string)
    requires forall x :: x in refs <==>
      if q.remoteFilter != "" then x == q.remoteFilter
      else x in ListSet(q.backups, q.defaults, q.entryFilter, q.backups.Keys)
    requires forall n :: n in q.clients <==> n in refs
    requires name in q.backups && r in q.backups[name].ResolvedRemotes(q.defaults)
    requires (q.entryFilter == "" || name == q.entryFilter) && (q.remoteFilter == "" || r == q.remoteFilter)
    ensures q.Visits(name, r)
  {
    if q.remoteFilter == "" {
      assert r in ListSet(q.backups, q.defaults, q.entryFilter, q.backups.Keys);
    }
  }
}

/** The catalog state machine, updated in place. Each method is proved against the function that specifies the
    operation, task directory included, so that the theorems about runs apply to the object. */
module CatalogClass {
  import opened CatalogModel
  import opened CatalogOps
  import opened TaskDirectory
  import opened Sums
  import Strings

  // ---------------------------------------------------------------- refreshing several shards

  lemma RefreshNone(tasks: map<ShardKey, Task>, d: Data, clock: nat)
    ensures Refresh(tasks, d, {}, clock) == tasks
  {
  }

  /** Refreshing one shard after others is refreshing them all; doing it twice does nothing more. */
  lemma RefreshMore(tasks: map<ShardKey, Task>, d: Data, keys: set<ShardKey>, k: ShardKey, clock: nat)
    ensures Refresh(Refresh(tasks, d, keys, clock), d, {k}, clock) == Refresh(tasks, d, keys + {k}, clock)
  {
    var a, b := Refresh(tasks, d, keys, clock), Refresh(tasks, d, keys + {k}, clock);
    var c := Refresh(a, d, {k}, clock);
    forall x ensures x in c <==> x in b {
    }
    forall x | x in c ensures c[x] == b[x] {
    }
  }

  // ---------------------------------------------------------------- the ordered containers

  lemma {:induction false} ListingUnique(s: set<string>, list: seq<string>)
    requires Strings.Ascending(list) && forall x :: x in list <==> x in s
    ensures list == Strings.Listing(s)
    decreases s
  {
    Strings.ListingSpec(s);
    assert list == [] || list[0] in list;
    if s != {} {
      var m := Strings.Least(s);
      assert list != [];
      assert list[0] == m by { FirstIsLeast(s, list, m); }
      assert list == [m] + list[1..];
      forall x ensures x in list[1..] <==> x in s - {m} {
        if x in list[1..] {
          var i :| 0 <= i < |list[1..]| && list[1..][i] == x;
          assert Strings.Less(list[0], list[i + 1]);
          Strings.Irreflexive(m);
        }
      }
      ListingUnique(s - {m}, list[1..]);
    }
  }

  lemma FirstIsLeast(s: set<string>, list: seq<string>, m: string)
    requires Strings.Ascending(list) && list != [] && Strings.IsLeast(m, s) && forall x :: x in list <==> x in s
    ensures list[0] == m
  {
    var i :| 0 <= i < |list| && list[i] == m;
    if i > 0 {
      assert Strings.Less(list[0], m) && list[0] in s;
      if list[0] != m {
        Strings.Transitive(m, list[0], m);
        Strings.Irreflexive(m);
      }
    }
  }

  method LeastOf(s: set<string>) returns (m: string)
    requires s != {}
    ensures Strings.IsLeast(m, s) && m == Strings.Least(s)
  {
    m :| m in s;
    var rest := s - {m};
    while rest != {}
      invariant rest <= s && m in s && forall x | x in s - rest :: x == m || Strings.Less(m, x)
      decreases rest
    {
      var x :| x in rest;
      if Strings.Less(x, m) {
        forall y | y in s - (rest - {x}) ensures y == x || Strings.Less(x, y) {
          if y != x && y != m { Strings.Transitive(x, m, y); }
        }
        m := x;
      } else {
        Strings.Total(x, m);
      }
      rest := rest - {x};
    }
    LeastUnique(s, m, Strings.Least(s));
  }

  lemma LeastUnique(s: set<string>, a: string, b: string)
    requires Strings.IsLeast(a, s) && Strings.IsLeast(b, s)
    ensures a == b
  {
    if a != b {
      Strings.Transitive(a, b, a);
      Strings.Irreflexive(a);
    }
  }

  method Sorted(s: set<string>) returns (list: seq<string>)
    ensures list == Strings.Listing(s)
  {
    list := [];
    var rest := s;
    while rest != {}
      invariant rest <= s && Strings.Ascending(list) && (forall x :: x in list <==> x in s - rest)
      invariant forall x, y | x in list && y in rest :: Strings.Less(x, y)
      decreases rest
    {
      var m := LeastOf(rest);
      forall x | x in list ensures Strings.Less(x, m) {
      }
      list, rest := list + [m], rest - {m};
    }
    ListingUnique(s, list);
  }

  function ClaimsOf(keys: seq<string>, batchId: string, now: nat): map<string, Idem> {
    map k | k in keys :: Idem(k, batchId, now)
  }

  lemma ClaimOne(idem: map<string, Idem>, keys: seq<string>, i: nat, batchId: string, now: nat)
    requires i < |keys|
    ensures idem + ClaimsOf(keys[..i + 1], batchId, now)
            == (idem + ClaimsOf(keys[..i], batchId, now))[keys[i] := Idem(keys[i], batchId, now)]
  {
    assert keys[..i + 1] == keys[..i] + [keys[i]];
  }

  lemma FreshFilesFrom(files: map<string, File>, added: seq<File>, i: nat)
    requires i < |added|
    ensures FreshFiles(files, added[i..])
            == (if added[i].batchId == "" || added[i].batchId in files then [] else [added[i]])
                + FreshFiles(files, added[i + 1..])
  {
    assert added[i..][0] == added[i] && added[i..][1..] == added[i + 1..];
  }

  lemma FreshDvsFrom(dvs: map<(string, string), Dv>, entries: seq<Dv>, i: nat)
    requires i < |entries|
    ensures FreshDvs(dvs, entries[i..]) == (if entries[i].Key() in dvs then [] else [entries[i]])
            + FreshDvs(dvs, entries[i + 1..])
  {
    assert entries[i..][0] == entries[i] && entries[i..][1..] == entries[i + 1..];
  }

  /** The first `i` entries are in order, and `added` are the unknown ones among them. */
  ghost predicate Admitted(files: map<string, File>, dvs: map<(string, string), Dv>, entries: seq<Dv>, i: nat,
                           added: seq<Dv>)
    requires i <= |entries|
  {
    && FirstRefusal(files, entries) == FirstRefusal(files, entries[i..])
    && FreshDvs(dvs, entries) == added + FreshDvs(dvs, entries[i..])
  }

  lemma AdmitFirst(files: map<string, File>, dvs: map<(string, string), Dv>, entries: seq<Dv>)
    ensures Admitted(files, dvs, entries, 0, [])
  {
    assert entries[0..] == entries;
  }

  lemma AdmitNext(files: map<string, File>, dvs: map<(string, string), Dv>, entries: seq<Dv>, i: nat, added: seq<Dv>)
    requires i < |entries| && Admitted(files, dvs, entries, i, added)
    ensures var e := entries[i];
            if e.dvId == "" || e.table == "" || e.path == "" then FirstRefusal(files, entries) == Some(MissingField)
            else if e.card == 0 then FirstRefusal(files, entries) == Some(EmptyDeletion)
            else if AnchorDead(files, e) then FirstRefusal(files, entries) == Some(AnchorGone)
            else Admitted(files, dvs, entries, i + 1, if e.Key() in dvs then added else added + [e])
  {
    assert entries[i..][0] == entries[i] && entries[i..][1..] == entries[i + 1..];
    FreshDvsFrom(dvs, entries, i);
  }

  lemma AdmitLast(files: map<string, File>, dvs: map<(string, string), Dv>, entries: seq<Dv>, added: seq<Dv>)
    requires Admitted(files, dvs, entries, |entries|, added)
    ensures FirstRefusal(files, entries) == None && FreshDvs(dvs, entries) == added
  {
  }

  // ---------------------------------------------------------------- what the operations come to

  /** The operations on leases touch nothing else. */
  lemma LeaseSteps(c: Catalog, op: Op)
    requires op.OpAcquireLease? || op.OpRenewLease? || op.OpReleaseLease?
    ensures FullStep(c, op) == c.(state := c.state.(leases := Step(c.state, op).leases))
  {
  }

  lemma CommitSteps(c: Catalog, req: CommitRequest, now: nat)
    ensures var s, d := c.state, DataCommit(c.state.data, req);
            CommitAccepted(c.state, req) ==>
            FullStep(c, OpCommitFiles(req, now)) ==
            Catalog(State(d, s.registry, s.idem + Claims(req, now), s.purged, s.leases, s.inFlight - {req.batchId},
                          Applied(BumpManifest(s.ver, req.table))),
                    Refresh(c.tasks, d, {ShardKey(req.table, req.shard)}, SatMul(now, 1000)))
  {
  }

  lemma CommitRefused(c: Catalog, req: CommitRequest, now: nat)
    ensures !CommitAccepted(c.state, req) ==>
              FullStep(c, OpCommitFiles(req, now))
              == if |req.files| > 1 || req.batchId in c.state.data.files then c
                 else c.(state := c.state.(inFlight := c.state.inFlight - {req.batchId}))
  {
  }

  lemma PurgeNothing(c: Catalog, table: string, purgeId: string, now: nat)
    ensures purgeId == "" || purgeId in c.state.purged ==> FullStep(c, OpPurge(table, purgeId, now)) == c
    ensures purgeId != "" && purgeId !in c.state.purged && Victims(c.state.data.files, table) == {} ==>
              FullStep(c, OpPurge(table, purgeId, now))
              == c.(state := c.state.(purged := c.state.purged[purgeId := c.state.data.snapshot]))
  {
  }

  lemma RevokeSteps(c: Catalog, path: string, at: nat, now: nat)
    requires DvsOfPath(c.state.data.dvs, path) != {}
    ensures var s, d := c.state, DataRevoke(c.state.data, path, at);
            FullStep(c, OpRevoke(path, at, now)) ==
            Catalog(State(d, s.registry, s.idem, s.purged, s.leases, s.inFlight, Structural(s.ver)),
                    Refresh(c.tasks, d, KeysOfPaths(d.files, {path}), now))
  {
    var s, d := c.state, DataRevoke(c.state.data, path, at);
    assert Step(s, OpRevoke(path, at, now)) == s.(data := d, ver := Structural(s.ver));
  }

  lemma PurgeSteps(c: Catalog, table: string, purgeId: string, now: nat)
    requires purgeId != "" && purgeId !in c.state.purged && Victims(c.state.data.files, table) != {}
    ensures var s, d := c.state, DataPurge(c.state.data, table);
            FullStep(c, OpPurge(table, purgeId, now)) ==
            Catalog(State(d, s.registry, s.idem, s.purged[purgeId := d.snapshot], s.leases, s.inFlight,
                          Applied(BumpManifest(s.ver, table))),
                    Refresh(c.tasks, d, KeysOfIds(s.data.files, Victims(s.data.files, table)), now))
  {
  }

  lemma DropShardSteps(c: Catalog, key: ShardKey, now: nat)
    ensures var s, d := c.state, DataDropShard(c.state.data, key);
            FullStep(c, OpDropShard(key, now)) ==
            Catalog(State(d, s.registry, s.idem, s.purged, s.leases, s.inFlight,
                Applied(BumpManifest(s.ver, key.table))),
                    Refresh(c.tasks, d, {key}, now))
  {
  }

  lemma DropTableSteps(c: Catalog, table: string)
    ensures var s, d := c.state, DataDropTable(c.state.data, table);
            FullStep(c, OpDropTable(table)) ==
            if table !in s.registry.tables then c
            else Catalog(State(d, s.registry.(
                                    tables := s.registry.tables - {table},
                                    schemas := map k | k in s.registry.schemas
                                        && k.0 != table :: s.registry.schemas[k]),
                               s.idem, s.purged, s.leases, s.inFlight,
                               Applied(BumpManifest(Structural(s.ver), table))), c.tasks)
  {
    if table in c.state.registry.tables { RefreshNone(c.tasks, DataDropTable(c.state.data, table), 0); }
  }

  lemma UpdateNothing(c: Catalog, entries: seq<Dv>, newFiles: seq<File>, updId: string, now: nat)
    ensures var s := c.state;
            var dvs := FreshDvs(s.data.dvs, entries);
            (newFiles == [] && entries == []) || !OneTable(newFiles, entries, UpdateTable(newFiles, entries))
            || (FreshFiles(s.data.files, newFiles) == [] && dvs == []) || FirstUpdateRefusal(s.data.files, dvs).Some?
            ==> FullStep(c, OpApplyUpdate(entries, newFiles, updId, now)) == c
  {
  }

  lemma UpdateSteps(c: Catalog, entries: seq<Dv>, newFiles: seq<File>, updId: string, now: nat)
    requires (newFiles != [] || entries != []) && OneTable(newFiles, entries, UpdateTable(newFiles, entries))
    requires FreshFiles(c.state.data.files, newFiles) != [] || FreshDvs(c.state.data.dvs, entries) != []
    requires FirstUpdateRefusal(c.state.data.files, FreshDvs(c.state.data.dvs, entries)).None?
    ensures FullStep(c, OpApplyUpdate(entries, newFiles, updId, now)) ==
            AfterUpdate(c, FreshFiles(c.state.data.files, newFiles), FreshDvs(c.state.data.dvs, entries), updId,
                        UpdateTable(newFiles, entries), now)
  {
  }

  ghost function AfterUpdate(c: Catalog, files: seq<File>, dvs: seq<Dv>, updId: string, table: string,
                             now: nat): Catalog {
    var s, d := c.state, DataUpdate(c.state.data, files, dvs);
    Catalog(State(d, s.registry, if updId == "" then s.idem else s.idem[updId := Idem(updId, "", now)], s.purged,
                  s.leases, s.inFlight, Applied(Structural(BumpManifest(s.ver, table)))),
            Refresh(c.tasks, d, KeysOfFiles(files) + KeysOfPaths(d.files, Paths(dvs)), SatMul(now, 1000)))
  }

  lemma CompactionRefused(c: Catalog, olds: seq<string>, news: seq<File>, epoch: nat, declared: string)
    ensures Fences(c.state.leases, epoch, declared) || InputGone(c.state.data.files, olds) ==>
              FullStep(c, OpCommitCompaction(olds, news, epoch, declared)) == c
  {
  }

  lemma CompactionSteps(c: Catalog, olds: seq<string>, news: seq<File>, epoch: nat, declared: string)
    requires !Fences(c.state.leases, epoch, declared) && !InputGone(c.state.data.files, olds)
    ensures FullStep(c, OpCommitCompaction(olds, news, epoch, declared)) == AfterSwap(c, olds, news)
  {
  }

  function FirstShard(news: seq<File>): set<ShardKey> {
    if news == [] then {} else {KeyOf(news[0])}
  }

  ghost function AfterSwap(c: Catalog, olds: seq<string>, news: seq<File>): Catalog {
    var s, d := c.state, DataSwap(c.state.data, olds, news);
    Catalog(State(d, s.registry, s.idem, s.purged, s.leases, s.inFlight - BatchIds(news),
                  Applied(BumpAll(s.ver, Strings.Listing(TouchedTables(s.data.files, olds, news))))),
            Refresh(c.tasks, d, FirstShard(news), 0))
  }

  lemma DeletionSteps(c: Catalog, entries: seq<Dv>, now: nat)
    requires FirstRefusal(c.state.data.files, entries).None? && FreshDvs(c.state.data.dvs, entries) != []
    ensures var s, d := c.state, DataAddDvs(c.state.data, FreshDvs(c.state.data.dvs, entries));
            FullStep(c, OpApplyDeletions(entries, now)) ==
            Catalog(State(d, s.registry, s.idem, s.purged, s.leases, s.inFlight, Structural(s.ver)),
                    Refresh(c.tasks, d, KeysOfPaths(d.files, Paths(FreshDvs(s.data.dvs, entries))), now))
  {
  }

  // ---------------------------------------------------------------- the state machine

  class CatalogState {
    var files: map<string, File>
    var dvs: map<(string, string), Dv>
    var snapshot: nat
    var registry: Registry
    var idem: map<string, Idem>
    var purged: map<string, nat>
    var leases: map<string, Lease>
    var inFlight: map<string, nat>
    var lastApplied: nat
    var schemaVer: nat
    var manifestVer: nat
    var tableVer: map<string, nat>
    var tasks: map<ShardKey, Task>

    function DataView(): Data
      reads this
    {
      Data(files, dvs, snapshot)
    }

    function Ver(): Counters
      reads this
    {
      Counters(lastApplied, schemaVer, manifestVer, tableVer)
    }

    function StateView(): State
      reads this
    {
      State(DataView(), registry, idem, purged, leases, inFlight, Ver())
    }

    function View(): Catalog
      reads this
    {
      Catalog(StateView(), tasks)
    }

    constructor ()
      ensures View() == Catalog(Initial(), map[])
    {
      files, dvs, snapshot, registry := map[], map[], 1, Registry(map[], {DEFAULT_SCHEMA}, map[], map[]);
      idem, purged, leases, inFlight := map[], map[], map[], map[];
      lastApplied, schemaVer, manifestVer, tableVer, tasks := 0, 0, 0, map[], map[];
    }

    // ---- leases

    method AcquireLease(purpose: string, holder: string, now: nat, ttl: nat) returns (g: Grant)
      modifies this`leases
      ensures (leases, g) == CatalogOps.AcquireLease(old(leases), purpose, holder, now, ttl)
      ensures View() == FullStep(old(View()), OpAcquireLease(purpose, holder, now, ttl))
    {
      LeaseSteps(View(), OpAcquireLease(purpose, holder, now, ttl));
      var expires := SatAdd(now, ttl);
      if purpose in leases {
        var cur := leases[purpose];
        if cur.holder != holder && now < cur.expiresAt { return Grant(false, cur.epoch, cur.expiresAt); }
        if cur.holder == holder {
          leases := leases[purpose := Lease(purpose, holder, cur.epoch, cur.grantedAt, expires)];
          return Grant(true, cur.epoch, expires);
        }
      }
      var epoch := (if purpose in leases then leases[purpose].epoch else 0) + 1;
      leases := leases[purpose := Lease(purpose, holder, epoch, now, expires)];
      return Grant(true, epoch, expires);
    }

    method RenewLease(purpose: string, holder: string, epoch: nat, now: nat, ttl: nat) returns (ok: bool)
      modifies this`leases
      ensures (leases, ok) == CatalogOps.RenewLease(old(leases), purpose, holder, epoch, now, ttl)
      ensures View() == FullStep(old(View()), OpRenewLease(purpose, holder, epoch, now, ttl))
    {
      LeaseSteps(View(), OpRenewLease(purpose, holder, epoch, now, ttl));
      if purpose !in leases { return false; }
      var cur := leases[purpose];
      if cur.holder != holder || cur.epoch != epoch || now >= cur.expiresAt { return false; }
      leases := leases[purpose := cur.(expiresAt := SatAdd(now, ttl))];
      return true;
    }

    method ReleaseLease(purpose: string, holder: string, epoch: nat) returns (ok: bool)
      modifies this`leases
      ensures (leases, ok) == CatalogOps.ReleaseLease(old(leases), purpose, holder, epoch)
      ensures View() == FullStep(old(View()), OpReleaseLease(purpose, holder, epoch))
    {
      LeaseSteps(View(), OpReleaseLease(purpose, holder, epoch));
      if purpose in leases && leases[purpose].holder == holder && leases[purpose].epoch == epoch {
        leases := leases[purpose := leases[purpose].(holder := "", expiresAt := 0)];
        return true;
      }
      return false;
    }

    // ---- the task directory

    /** The rows of `path` that are deleted now. */
    method CountDeleted(path: string) returns (card: nat)
      ensures card == Deleted(DataView(), path)
    {
      card := 0;
      var cards := Cards(DataView(), path);
      var rest := cards;
      while rest != map[]
        invariant card + Sum(rest) == Sum(cards)
        decreases rest.Keys
      {
        var k :| k in rest;
        SumTake(rest, k);
        card := card + rest[k];
        rest := rest - {k};
      }
    }

    method RefreshTask(key: ShardKey, now: nat)
      modifies this`tasks
      ensures tasks == Refresh(old(tasks), DataView(), {key}, now)
    {
      var body := DeriveTask(key);
      if body.Some? {
        var since := if key in tasks && tasks[key].since != 0 then tasks[key].since else now;
        tasks := tasks[key := Task(body.value, since)];
      } else {
        tasks := tasks - {key};
      }
    }

    method DeriveTask(key: ShardKey) returns (body: Option<Body>)
      ensures body == Derive(DataView(), key)
    {
      var members := Members(DataView(), key);
      var rows, hit := Tally(members);
      return if |members| >= TASK_FILES then Some(Body(|members|, rows, SmallFiles))
             else if hit then Some(Body(|members|, rows, Deletions)) else None;
    }

    /** The deleted rows of the files, and whether one of them has enough to be worth rewriting. */
    method Tally(ids: set<string>) returns (rows: nat, hit: bool)
      requires ids <= files.Keys
      ensures rows == Sum(DeletedPer(DataView(), ids)) && hit == AnyWorthRewriting(DataView(), ids)
    {
      rows, hit := 0, false;
      var rest := ids;
      ghost var d, done: set<string> := DataView(), {};
      while rest != {}
        invariant rest + done == ids && rest !! done
        invariant rows == Sum(DeletedPer(d, done)) && hit == AnyWorthRewriting(d, done)
        decreases rest
      {
        var b :| b in rest;
        var card := CountDeleted(files[b].path);
        OneMoreSum(d, done, b);
        OneMoreFile(d, done, b);
        rows := rows + card;
        if WorthRewriting(files[b].rowCount, card) { hit := true; }
        rest, done := rest - {b}, done + {b};
      }
      assert done == ids;
    }

    method RefreshAll(keys: set<ShardKey>, now: nat)
      modifies this`tasks
      ensures tasks == Refresh(old(tasks), DataView(), keys, now)
    {
      var rest, done: set<ShardKey> := keys, {};
      RefreshNone(tasks, DataView(), now);
      while rest != {}
        invariant rest + done == keys
        invariant tasks == Refresh(old(tasks), DataView(), done, now)
        decreases rest
      {
        var k :| k in rest;
        RefreshMore(old(tasks), DataView(), done, k, now);
        RefreshTask(k, now);
        rest, done := rest - {k}, done + {k};
      }
      assert done == keys;
    }

    /** The shard of the first file at `path`. */
    method ShardOfPath(path: string) returns (key: Option<ShardKey>)
      ensures key == KeyOfPath(files, path)
    {
      var ids := set b | b in files && files[b].path == path;
      if ids == {} { return None; }
      var first := LeastOf(ids);
      return Some(KeyOf(files[first]));
    }

    method ShardsOfPaths(paths: set<string>) returns (keys: set<ShardKey>)
      ensures keys == KeysOfPaths(files, paths)
    {
      keys := {};
      var rest := paths;
      while rest != {}
        invariant rest <= paths && keys == KeysOfPaths(files, paths - rest)
        decreases rest
      {
        var p :| p in rest;
        var key := ShardOfPath(p);
        OneMorePath(files, paths - rest, p);
        assert paths - (rest - {p}) == (paths - rest) + {p};
        if key.Some? { keys := keys + {key.value}; }
        rest := rest - {p};
      }
      assert paths - {} == paths;
    }

    // ---- committing files

    /** Whether a key belongs to another batch that was committed. */
    method AnyKeyTaken(keys: seq<string>, batchId: string) returns (taken: bool)
      ensures taken == KeyTaken(idem, keys, batchId)
    {
      for i := 0 to |keys|
        invariant !KeyTaken(idem, keys[..i], batchId)
      {
        assert keys[..i + 1] == keys[..i] + [keys[i]];
        if keys[i] in idem && idem[keys[i]].batchId != "" && idem[keys[i]].batchId != batchId { return true; }
      }
      assert keys[..|keys|] == keys;
      return false;
    }

    method ClaimKeys(req: CommitRequest, now: nat)
      modifies this`idem
      ensures idem == old(idem) + Claims(req, now)
    {
      var keys := req.Keys();
      for i := 0 to |keys|
        invariant idem == old(idem) + ClaimsOf(keys[..i], req.batchId, now)
      {
        ClaimOne(old(idem), keys, i, req.batchId, now);
        idem := idem[keys[i] := Idem(keys[i], req.batchId, now)];
      }
      assert keys[..|keys|] == keys;
    }

    method Bump(table: string)
      modifies this`manifestVer, this`tableVer
      ensures Ver() == BumpManifest(old(Ver()), table)
    {
      manifestVer := manifestVer + 1;
      tableVer := tableVer[table := manifestVer];
    }

    method CommitFiles(req: CommitRequest, now: nat) returns (r: Result<CommitResponse>)
      modifies this
      ensures r == CatalogOps.CommitFiles(old(StateView()), req, now).1
      ensures View() == FullStep(old(View()), OpCommitFiles(req, now))
    {
      if |req.files| > 1 {
        CommitRefused(View(), req, now);
        return Err(TooManyFiles);
      }
      if req.batchId in files {
        CommitRefused(View(), req, now);
        return Ok(CommitResponse(false, snapshot, lastApplied));
      }
      var accepted := CommitNew(req, now);
      return Ok(CommitResponse(accepted, snapshot, lastApplied));
    }

    /** The batch is new: its in-flight entry has done its work, and only a taken key stands against it. */
    method CommitNew(req: CommitRequest, now: nat) returns (accepted: bool)
      requires |req.files| <= 1 && req.batchId !in files
      modifies this
      ensures accepted == CommitAccepted(old(StateView()), req)
      ensures View() == FullStep(old(View()), OpCommitFiles(req, now))
      ensures snapshot == old(snapshot) + (if accepted then 1 else 0)
              && lastApplied == old(lastApplied) + (if accepted then 1 else 0)
    {
      CommitSteps(View(), req, now);
      CommitRefused(View(), req, now);
      inFlight := inFlight - {req.batchId};
      var taken := AnyKeyTaken(req.Keys(), req.batchId);
      if !taken { RecordCommit(req, now); }
      return !taken;
    }

    /** An accepted commit: keys, file, task, versions. */
    method RecordCommit(req: CommitRequest, now: nat)
      modifies this`idem, this`files, this`snapshot, this`tasks, this`manifestVer, this`tableVer, this`lastApplied
      ensures idem == old(idem) + Claims(req, now)
      ensures DataView() == DataCommit(old(DataView()), req)
      ensures tasks == Refresh(old(tasks), DataView(), {ShardKey(req.table, req.shard)}, SatMul(now, 1000))
      ensures Ver() == Applied(BumpManifest(old(Ver()), req.table))
    {
      ClaimKeys(req, now);
      PutFile(req);
      RefreshTask(ShardKey(req.table, req.shard), SatMul(now, 1000));
      CountApplied(req.table);
    }

    method CountApplied(table: string)
      modifies this`manifestVer, this`tableVer, this`lastApplied
      ensures Ver() == Applied(BumpManifest(old(Ver()), table))
    {
      Bump(table);
      lastApplied := lastApplied + 1;
    }

    method PutFile(req: CommitRequest)
      modifies this`files, this`snapshot
      ensures DataView() == DataCommit(old(DataView()), req)
    {
      snapshot := snapshot + 1;
      if req.files != [] { files := files[req.batchId := req.Stamp(req.files[0], snapshot)]; }
    }

    // ---- rewriting entries

    /** Marks the given files as deleted at `at`. */
    method EntombFiles(ids: set<string>, at: nat)
      modifies this`files
      ensures files == Entomb(old(files), ids, at)
    {
      var rest := ids;
      while rest != {}
        invariant rest <= ids && files.Keys == old(files).Keys
        invariant forall b | b in files :: files[b] == if b in ids - rest then old(files)[b].(deletedAt := at)
                  else old(files)[b]
        decreases rest
      {
        var b :| b in rest;
        if b in files { files := files[b := files[b].(deletedAt := at)]; }
        rest := rest - {b};
      }
    }

    method RevokeDvs(keys: set<(string, string)>, at: nat)
      requires keys <= dvs.Keys
      modifies this`dvs
      ensures dvs == RevokeKeys(old(dvs), keys, at)
    {
      var rest := keys;
      while rest != {}
        invariant rest <= keys && dvs.Keys == old(dvs).Keys
        invariant forall k | k in dvs :: dvs[k] == if k in keys - rest then old(dvs)[k].(revokedAt := at)
                  else old(dvs)[k]
        decreases rest
      {
        var k :| k in rest;
        dvs := dvs[k := dvs[k].(revokedAt := at)];
        rest := rest - {k};
      }
    }

    method InsertFiles(added: seq<File>, next: nat)
      modifies this`files
      ensures files == AddFiles(old(files), added, next)
    {
      for i := 0 to |added|
        invariant AddFiles(files, added[i..], next) == AddFiles(old(files), added, next)
      {
        assert added[i..][0] == added[i] && added[i..][1..] == added[i + 1..];
        files := files[added[i].batchId := added[i].(validFrom := next)];
      }
    }

    method InsertDvs(added: seq<Dv>, next: nat)
      modifies this`dvs
      ensures dvs == AddDvs(old(dvs), added, next)
    {
      for i := 0 to |added|
        invariant AddDvs(dvs, added[i..], next) == AddDvs(old(dvs), added, next)
      {
        assert added[i..][0] == added[i] && added[i..][1..] == added[i + 1..];
        dvs := dvs[added[i].Key() := StampDv(added[i], next)];
      }
    }

    // ---- purging, dropping a shard, revoking

    method PurgeTable(table: string, purgeId: string, now: nat) returns (r: Result<PurgeOutcome>)
      modifies this
      ensures r == CatalogOps.PurgeTable(old(StateView()), table, purgeId).1
      ensures View() == FullStep(old(View()), OpPurge(table, purgeId, now))
    {
      var victims := Victims(files, table);
      if purgeId == "" || purgeId in purged || victims == {} {
        PurgeNothing(View(), table, purgeId, now);
        if purgeId == "" { return Err(MissingPurgeId); }
        if purgeId in purged { return Ok(PurgeOutcome(purged[purgeId], 0, 0)); }
        purged := purged[purgeId := snapshot];
        return Ok(PurgeOutcome(snapshot, 0, 0));
      }
      var revoked := PurgeNew(table, purgeId, now);
      return Ok(PurgeOutcome(snapshot, |victims|, revoked));
    }

    method PurgeNew(table: string, purgeId: string, now: nat) returns (revoked: nat)
      requires purgeId != "" && purgeId !in purged && Victims(files, table) != {}
      modifies this
      ensures View() == FullStep(old(View()), OpPurge(table, purgeId, now))
      ensures snapshot == old(snapshot) + 1 && revoked == |LiveDvsOfTable(old(dvs), table)|
    {
      PurgeSteps(View(), table, purgeId, now);
      revoked := RemoveTableFiles(table, now);
      purged := purged[purgeId := snapshot];
      lastApplied := lastApplied + 1;
    }

    /** The files go and the vectors with them, at one snapshot. */
    method RemoveTableFiles(table: string, now: nat) returns (revoked: nat)
      modifies this`files, this`dvs, this`snapshot, this`tasks, this`manifestVer, this`tableVer
      ensures DataView() == DataPurge(old(DataView()), table)
      ensures tasks == Refresh(old(tasks), DataView(), KeysOfIds(old(files), Victims(old(files), table)), now)
      ensures Ver() == BumpManifest(old(Ver()), table)
      ensures revoked == |LiveDvsOfTable(old(dvs), table)|
    {
      var touched := KeysOfIds(files, Victims(files, table));
      revoked := PurgeData(table);
      RefreshAll(touched, now);
      Bump(table);
    }

    method PurgeData(table: string) returns (revoked: nat)
      modifies this`files, this`dvs, this`snapshot
      ensures DataView() == DataPurge(old(DataView()), table)
      ensures revoked == |LiveDvsOfTable(old(dvs), table)|
    {
      snapshot := snapshot + 1;
      EntombFiles(Victims(files, table), snapshot);
      var live := LiveDvsOfTable(dvs, table);
      RevokeDvs(live, snapshot);
      return |live|;
    }

    method DropShard(key: ShardKey, now: nat) returns (n: nat)
      modifies this
      ensures n == CatalogOps.DropShard(old(StateView()), key).1
      ensures View() == FullStep(old(View()), OpDropShard(key, now))
    {
      DropShardSteps(View(), key, now);
      n := RemoveShardFiles(key, now);
      lastApplied := lastApplied + 1;
    }

    method RemoveShardFiles(key: ShardKey, now: nat) returns (n: nat)
      modifies this`files, this`snapshot, this`tasks, this`manifestVer, this`tableVer
      ensures DataView() == DataDropShard(old(DataView()), key)
      ensures tasks == Refresh(old(tasks), DataView(), {key}, now)
      ensures Ver() == BumpManifest(old(Ver()), key.table)
      ensures n == |LiveFilesOfShard(old(files), key)|
    {
      var live := LiveFilesOfShard(files, key);
      snapshot := snapshot + 1;
      EntombFiles(live, snapshot);
      RefreshTask(key, now);
      Bump(key.table);
      return |live|;
    }

    /** Entries and vectors go for good; no task is refreshed. */
    method DropTable(table: string) returns (r: Result<()>)
      modifies this
      ensures r == CatalogOps.DropTable(old(StateView()), table).1
      ensures View() == FullStep(old(View()), OpDropTable(table))
    {
      DropTableSteps(View(), table);
      if table !in registry.tables { return Err(NotFound); }
      Forget(table);
      CountDrop(table);
      return Ok(());
    }

    method CountDrop(table: string)
      modifies this`manifestVer, this`tableVer, this`schemaVer, this`lastApplied
      ensures Ver() == Applied(BumpManifest(Structural(old(Ver())), table))
    {
      schemaVer := schemaVer + 1;
      Bump(table);
      lastApplied := lastApplied + 1;
    }

    method Forget(table: string)
      modifies this`registry, this`files, this`dvs, this`snapshot
      ensures registry == old(registry).(
                tables := old(registry).tables - {table},
                schemas := map k | k in old(registry).schemas && k.0 != table :: old(registry).schemas[k])
      ensures DataView() == DataDropTable(old(DataView()), table)
    {
      registry := registry.(tables := registry.tables - {table},
                            schemas := map k | k in registry.schemas && k.0 != table :: registry.schemas[k]);
      files := map b | b in files && files[b].table != table :: files[b];
      dvs := map k | k in dvs && dvs[k].table != table :: dvs[k];
      snapshot := snapshot + 1;
    }

    method RevokeDeletionsForFile(path: string, at: nat, now: nat) returns (n: nat)
      modifies this
      ensures n == RevokeForFile(old(StateView()), path, at).1
      ensures View() == FullStep(old(View()), OpRevoke(path, at, now))
    {
      var hit := DvsOfPath(dvs, path);
      if hit == {} { return 0; }
      RevokeSteps(View(), path, at, now);
      RevokeVectors(path, at, now);
      schemaVer := schemaVer + 1;
      return |hit|;
    }

    method RevokeVectors(path: string, at: nat, now: nat)
      modifies this`dvs, this`tasks
      ensures DataView() == DataRevoke(old(DataView()), path, at)
      ensures tasks == Refresh(old(tasks), DataView(), KeysOfPaths(files, {path}), now)
    {
      RevokeDvs(DvsOfPath(dvs, path), at);
      var keys := ShardsOfPaths({path});
      RefreshAll(keys, now);
    }

    // ---- deletions

    /** Checks the entries in order and keeps those that are not known yet. */
    method Admit(entries: seq<Dv>) returns (refusal: Option<Error>, added: seq<Dv>)
      ensures refusal == FirstRefusal(files, entries)
      ensures refusal.None? ==> added == FreshDvs(dvs, entries)
    {
      added := [];
      AdmitFirst(files, dvs, entries);
      for i := 0 to |entries|
        invariant Admitted(files, dvs, entries, i, added)
      {
        var e := entries[i];
        AdmitNext(files, dvs, entries, i, added);
        if e.dvId == "" || e.table == "" || e.path == "" { return Some(MissingField), []; }
        if e.card == 0 { return Some(EmptyDeletion), []; }
        if e.batchId in files && files[e.batchId].deletedAt != 0 { return Some(AnchorGone), []; }
        if e.Key() !in dvs { added := added + [e]; }
      }
      AdmitLast(files, dvs, entries, added);
      return None, added;
    }

    method ApplyDeletions(entries: seq<Dv>, now: nat) returns (r: Result<nat>)
      modifies this
      ensures r == CatalogOps.ApplyDeletions(old(StateView()), entries).1
      ensures View() == FullStep(old(View()), OpApplyDeletions(entries, now))
    {
      var refusal, added := Admit(entries);
      if refusal.Some? { return Err(refusal.value); }
      if added == [] { return Ok(snapshot); }
      DeletionSteps(View(), entries, now);
      RegisterDvs(added, now);
      schemaVer := schemaVer + 1;
      return Ok(snapshot);
    }

    method RegisterDvs(added: seq<Dv>, now: nat)
      modifies this`dvs, this`snapshot, this`tasks
      ensures DataView() == DataAddDvs(old(DataView()), added)
      ensures tasks == Refresh(old(tasks), DataView(), KeysOfPaths(files, Paths(added)), now)
    {
      snapshot := snapshot + 1;
      InsertDvs(added, snapshot);
      var keys := ShardsOfPaths(Paths(added));
      RefreshAll(keys, now);
    }

    // ---- updates

    method CheckOneTable(newFiles: seq<File>, entries: seq<Dv>, table: string) returns (ok: bool)
      ensures ok == OneTable(newFiles, entries, table)
    {
      for i := 0 to |newFiles|
        invariant forall f | f in newFiles[..i] :: f.table == table
      {
        assert newFiles[i] in newFiles && newFiles[..i + 1] == newFiles[..i] + [newFiles[i]];
        if newFiles[i].table != table { return false; }
      }
      assert newFiles[..|newFiles|] == newFiles;
      for i := 0 to |entries|
        invariant forall d | d in entries[..i] :: d.table == table
      {
        assert entries[i] in entries && entries[..i + 1] == entries[..i] + [entries[i]];
        if entries[i].table != table { return false; }
      }
      assert entries[..|entries|] == entries;
      return true;
    }

    /** What is left of a request after everything known is taken out. */
    method Deduplicate(newFiles: seq<File>, entries: seq<Dv>) returns (added: seq<File>, vectors: seq<Dv>)
      ensures added == FreshFiles(files, newFiles) && vectors == FreshDvs(dvs, entries)
    {
      added := UnknownFiles(newFiles);
      vectors := UnknownDvs(entries);
    }

    method UnknownDvs(entries: seq<Dv>) returns (vectors: seq<Dv>)
      ensures vectors == FreshDvs(dvs, entries)
    {
      vectors := [];
      for i := 0 to |entries|
        invariant FreshDvs(dvs, entries) == vectors + FreshDvs(dvs, entries[i..])
      {
        FreshDvsFrom(dvs, entries, i);
        if entries[i].Key() !in dvs { vectors := vectors + [entries[i]]; }
      }
    }

    method UnknownFiles(newFiles: seq<File>) returns (added: seq<File>)
      ensures added == FreshFiles(files, newFiles)
    {
      added := [];
      for i := 0 to |newFiles|
        invariant FreshFiles(files, newFiles) == added + FreshFiles(files, newFiles[i..])
      {
        FreshFilesFrom(files, newFiles, i);
        if newFiles[i].batchId != "" && newFiles[i].batchId !in files { added := added + [newFiles[i]]; }
      }
    }

    method CheckVectors(vectors: seq<Dv>) returns (refusal: Option<Error>)
      ensures refusal == FirstUpdateRefusal(files, vectors)
    {
      for i := 0 to |vectors|
        invariant FirstUpdateRefusal(files, vectors) == FirstUpdateRefusal(files, vectors[i..])
      {
        var e := vectors[i];
        assert vectors[i..][0] == e && vectors[i..][1..] == vectors[i + 1..];
        if e.dvId == "" || e.path == "" { return Some(MissingField); }
        if e.batchId in files && files[e.batchId].deletedAt != 0 { return Some(AnchorGone); }
        if e.card == 0 { return Some(EmptyDeletion); }
      }
      return None;
    }

    method ApplyUpdate(entries: seq<Dv>, newFiles: seq<File>, updId: string, now: nat) returns (r: Result<nat>)
      modifies this
      ensures r == CatalogOps.ApplyUpdate(old(StateView()), entries, newFiles, updId, now).1
      ensures View() == FullStep(old(View()), OpApplyUpdate(entries, newFiles, updId, now))
    {
      var table := UpdateTable(newFiles, entries);
      var added, vectors, refusal := Examine(entries, newFiles, table);
      if refusal.Some? || (added == [] && vectors == []) {
        UpdateNothing(View(), entries, newFiles, updId, now);
        return if refusal.Some? then Err(refusal.value) else Ok(snapshot);
      }
      UpdateSteps(View(), entries, newFiles, updId, now);
      UpdateNew(added, vectors, updId, table, now);
      return Ok(snapshot);
    }

    /** Refuses a request over several tables first, then takes out what is known, then checks the new vectors. */
    method Examine(entries: seq<Dv>, newFiles: seq<File>, table: string)
      returns (added: seq<File>, vectors: seq<Dv>, refusal: Option<Error>)
      requires table == UpdateTable(newFiles, entries)
      ensures added == FreshFiles(files, newFiles) && vectors == FreshDvs(dvs, entries)
      ensures refusal == if !OneTable(newFiles, entries, table) then Some(CrossTable)
                         else FirstUpdateRefusal(files, vectors)
    {
      var one := CheckOneTable(newFiles, entries, table);
      added, vectors := Deduplicate(newFiles, entries);
      if !one { return added, vectors, Some(CrossTable); }
      refusal := CheckVectors(vectors);
    }

    method UpdateNew(added: seq<File>, vectors: seq<Dv>, updId: string, table: string, now: nat)
      modifies this
      ensures View() == AfterUpdate(old(View()), added, vectors, updId, table, now)
      ensures snapshot == old(snapshot) + 1
    {
      RecordUpdate(added, vectors, SatMul(now, 1000));
      NoteUpdate(updId, table, now);
    }

    /** The id of the update is claimed without a batch. */
    method NoteUpdate(updId: string, table: string, now: nat)
      modifies this`idem, this`manifestVer, this`tableVer, this`schemaVer, this`lastApplied
      ensures idem == if updId == "" then old(idem) else old(idem)[updId := Idem(updId, "", now)]
      ensures Ver() == Applied(Structural(BumpManifest(old(Ver()), table)))
    {
      if updId != "" { idem := idem[updId := Idem(updId, "", now)]; }
      CountUpdate(table);
    }

    method CountUpdate(table: string)
      modifies this`manifestVer, this`tableVer, this`schemaVer, this`lastApplied
      ensures Ver() == Applied(Structural(BumpManifest(old(Ver()), table)))
    {
      Bump(table);
      schemaVer := schemaVer + 1;
      lastApplied := lastApplied + 1;
    }

    /** One snapshot for the new files and the new vectors. */
    method RecordUpdate(added: seq<File>, vectors: seq<Dv>, now: nat)
      modifies this`files, this`dvs, this`snapshot, this`tasks
      ensures DataView() == DataUpdate(old(DataView()), added, vectors)
      ensures tasks == Refresh(old(tasks), DataView(), KeysOfFiles(added) + KeysOfPaths(files, Paths(vectors)), now)
    {
      snapshot := snapshot + 1;
      InsertFiles(added, snapshot);
      InsertDvs(vectors, snapshot);
      var keys := ShardsOfPaths(Paths(vectors));
      RefreshAll(KeysOfFiles(added) + keys, now);
    }

    // ---- compaction

    method AnyInputGone(olds: seq<string>) returns (gone: bool)
      ensures gone == InputGone(files, olds)
    {
      for i := 0 to |olds|
        invariant !InputGone(files, olds[..i])
      {
        assert olds[..i + 1] == olds[..i] + [olds[i]];
        if olds[i] in files && files[olds[i]].deletedAt != 0 { return true; }
      }
      assert olds[..|olds|] == olds;
      return false;
    }

    /** Each table gets its own manifest version, in the order given. */
    method BumpEach(tables: seq<string>)
      modifies this`manifestVer, this`tableVer
      ensures Ver() == BumpAll(old(Ver()), tables)
    {
      for i := 0 to |tables|
        invariant manifestVer == old(manifestVer) + i
        invariant Versions(tableVer, manifestVer, tables[i..]) == Versions(old(tableVer), old(manifestVer), tables)
      {
        assert tables[i..][0] == tables[i] && tables[i..][1..] == tables[i + 1..];
        Bump(tables[i]);
      }
    }

    method CommitCompaction(olds: seq<string>, news: seq<File>, epoch: nat, declared: string) returns (r: Result<nat>)
      modifies this
      ensures r == CatalogOps.CommitCompaction(old(StateView()), olds, news, epoch, declared).1
      ensures View() == FullStep(old(View()), OpCommitCompaction(olds, news, epoch, declared))
    {
      var purpose := if declared == "" then COMPACTION_LEASE else declared;
      var gone := AnyInputGone(olds);
      var fenced := purpose in leases && epoch < leases[purpose].epoch;
      if fenced || gone {
        CompactionRefused(View(), olds, news, epoch, declared);
        return Err(if fenced then Fenced else Conflict);
      }
      CompactNew(olds, news, epoch, declared);
      return Ok(snapshot);
    }

    method CompactNew(olds: seq<string>, news: seq<File>, epoch: nat, declared: string)
      requires !Fences(leases, epoch, declared) && !InputGone(files, olds)
      modifies this
      ensures View() == FullStep(old(View()), OpCommitCompaction(olds, news, epoch, declared))
      ensures snapshot == old(snapshot) + 1
    {
      CompactionSteps(View(), olds, news, epoch, declared);
      var touched := Sorted(TouchedTables(files, olds, news));
      RecordSwap(olds, news, touched);
    }

    method RecordSwap(olds: seq<string>, news: seq<File>, touched: seq<string>)
      modifies this`files, this`snapshot, this`tasks, this`inFlight, this`manifestVer, this`tableVer, this`lastApplied
      ensures DataView() == DataSwap(old(DataView()), olds, news)
      ensures tasks == Refresh(old(tasks), DataView(), FirstShard(news), 0)
      ensures inFlight == old(inFlight) - BatchIds(news)
      ensures Ver() == Applied(BumpAll(old(Ver()), touched))
    {
      SwapFiles(olds, news);
      inFlight := inFlight - BatchIds(news);
      CountCompaction(touched);
    }

    method CountCompaction(tables: seq<string>)
      modifies this`manifestVer, this`tableVer, this`lastApplied
      ensures Ver() == Applied(BumpAll(old(Ver()), tables))
    {
      BumpEach(tables);
      lastApplied := lastApplied + 1;
    }

    /** The inputs go and the products come at one snapshot; only the shard of the first product is refreshed. */
    method SwapFiles(olds: seq<string>, news: seq<File>)
      modifies this`files, this`snapshot, this`tasks
      ensures DataView() == DataSwap(old(DataView()), olds, news)
      ensures tasks == Refresh(old(tasks), DataView(), FirstShard(news), 0)
    {
      snapshot := snapshot + 1;
      EntombFiles(Ids(olds), snapshot);
      InsertFiles(news, snapshot);
      RefreshAll(FirstShard(news), 0);
    }

    // ---- in-flight batches, keys, known batches

    method RecordInFlight(batchId: string, now: nat)
      modifies this`inFlight
      ensures inFlight == CatalogOps.RecordInFlight(old(inFlight), batchId, now)
    {
      if batchId !in inFlight { inFlight := inFlight[batchId := now]; }
    }

    method SweepExpiredInFlight(ttl: nat, now: nat) returns (n: nat)
      modifies this`inFlight
      ensures inFlight == SweepInFlight(old(inFlight), ttl, now)
      ensures n == |old(inFlight).Keys - inFlight.Keys|
    {
      var expired := set b | b in inFlight && SatSub(now, inFlight[b]) >= ttl;
      inFlight := inFlight - expired;
      assert old(inFlight).Keys - inFlight.Keys == expired;
      return |expired|;
    }

    method RecordIdempotency(rec: Idem)
      modifies this`idem
      ensures idem == RecordIdem(old(idem), rec)
    {
      if rec.key !in idem { idem := idem[rec.key := rec]; }
    }

    method SweepExpiredIdempotency(ttl: nat, now: nat) returns (n: nat)
      modifies this`idem
      ensures idem == SweepIdem(old(idem), ttl, now)
      ensures n == |old(idem).Keys - idem.Keys|
    {
      var expired := set k | k in idem && SatSub(now, idem[k].committedAt) >= ttl;
      idem := idem - expired;
      assert old(idem).Keys - idem.Keys == expired;
      return |expired|;
    }

    /** In ascending order: the batches of files a reader at the current snapshot may need, and those in flight. */
    method ListKnownBatchIds() returns (ids: seq<string>)
      ensures ids == Strings.Listing(KnownBatchIds(StateView()))
    {
      ids := Sorted((set b | b in files && files[b].ProtectedAt(snapshot)) + inFlight.Keys);
    }
  }

  lemma OneMoreSum(d: Data, ids: set<string>, b: string)
    requires b in d.files && b !in ids
    ensures Sum(DeletedPer(d, ids + {b})) == Sum(DeletedPer(d, ids)) + Deleted(d, d.files[b].path)
  {
    var m := DeletedPer(d, ids + {b});
    SumTake(m, b);
    assert m - {b} == DeletedPer(d, ids);
  }

  lemma OneMoreFile(d: Data, ids: set<string>, b: string)
    requires b in d.files
    ensures AnyWorthRewriting(d, ids + {b})
            == (AnyWorthRewriting(d, ids) || WorthRewriting(d.files[b].rowCount, Deleted(d, d.files[b].path)))
  {
    if AnyWorthRewriting(d, ids) {
      var a :| a in ids && a in d.files && WorthRewriting(d.files[a].rowCount, Deleted(d, d.files[a].path));
      assert a in ids + {b};
    }
    if WorthRewriting(d.files[b].rowCount, Deleted(d, d.files[b].path)) { assert b in ids + {b}; }
  }

  lemma OneMorePath(files: map<string, File>, paths: set<string>, p: string)
    ensures KeysOfPaths(files, paths + {p})
            == KeysOfPaths(files, paths) + if KeyOfPath(files, p).Some? then {KeyOfPath(files, p).value} else {}
  {
    var a, b := KeysOfPaths(files, paths), KeysOfPaths(files, paths + {p});
    forall k | k in b && k !in a ensures KeyOfPath(files, p) == Some(k) {
      var q :| q in paths + {p} && KeyOfPath(files, q).Some? && KeyOfPath(files, q).value == k;
      assert q == p;
    }
    forall k | k in a ensures k in b {
      var q :| q in paths && KeyOfPath(files, q).Some? && KeyOfPath(files, q).value == k;
      assert q in paths + {p};
    }
    if KeyOfPath(files, p).Some? { assert p in paths + {p}; }
  }
}

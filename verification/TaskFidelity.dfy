/** After any run the task directory is what a rebuild from scratch would give. */
module TaskFidelity {
  import opened CatalogModel
  import opened CatalogOps
  import opened Evolution
  import opened TaskDirectory
  import Strings

  // ---- the premises on the data

  ghost predicate UniquePaths(files: map<string, File>) {
    forall a, b | a in files && b in files && files[a].path == files[b].path :: a == b
  }

  /** A deletion vector names the table of the file it hits. */
  ghost predicate TablesMatch(d: Data) {
    forall k, b | k in d.dvs && b in d.files && d.dvs[k].path == d.files[b].path :: d.dvs[k].table == d.files[b].table
  }

  ghost predicate Clean(d: Data) {
    && ValidData(d) && UniquePaths(d.files) && TablesMatch(d)
    && forall k | k in d.dvs :: d.dvs[k].revokedAt <= d.snapshot
  }

  // ---- a shard whose files and vectors stay the same derives the same task

  ghost predicate FilesTouch(d: Data, e: Data, keys: set<ShardKey>) {
    && d.files.Keys <= e.files.Keys
    && (forall b | b in d.files ::
          e.files[b].path == d.files[b].path && e.files[b].rowCount == d.files[b].rowCount
              && KeyOf(e.files[b]) == KeyOf(d.files[b]))
    && (forall b | b in e.files ::
          (b in d.files && e.files[b].deletedAt == d.files[b].deletedAt) || KeyOf(e.files[b]) in keys)
  }

  ghost predicate HitsOnly(files: map<string, File>, path: string, keys: set<ShardKey>) {
    forall b | b in files && files[b].deletedAt == 0 && files[b].path == path :: KeyOf(files[b]) in keys
  }

  ghost predicate DvsTouch(d: Data, e: Data, keys: set<ShardKey>) {
    && d.dvs.Keys <= e.dvs.Keys
    && (forall x | x in d.dvs :: e.dvs[x].path == d.dvs[x].path && e.dvs[x].card == d.dvs[x].card)
    && (forall x | x in e.dvs ::
          (x in d.dvs && e.dvs[x].revokedAt == d.dvs[x].revokedAt) || HitsOnly(e.files, e.dvs[x].path, keys))
  }

  ghost predicate NotAhead(d: Data) {
    && (forall b | b in d.files :: d.files[b].deletedAt <= d.snapshot)
    && (forall k | k in d.dvs :: d.dvs[k].appliedAt <= d.snapshot && d.dvs[k].revokedAt <= d.snapshot)
  }

  lemma SameMembers(d: Data, e: Data, keys: set<ShardKey>, k: ShardKey)
    requires NotAhead(d) && NotAhead(e) && FilesTouch(d, e, keys) && k !in keys
    ensures Members(d, k) == Members(e, k)
    ensures forall b | b in Members(d, k) ::
              e.files[b].path == d.files[b].path && e.files[b].rowCount == d.files[b].rowCount
  {
    forall b ensures b in Members(d, k) <==> b in Members(e, k) {
    }
  }

  lemma SameCards(d: Data, e: Data, keys: set<ShardKey>, k: ShardKey, b: string)
    requires NotAhead(d) && NotAhead(e) && FilesTouch(d, e, keys) && DvsTouch(d, e, keys) && k !in keys
    requires b in Members(e, k)
    ensures Cards(d, e.files[b].path) == Cards(e, e.files[b].path)
  {
    assert !HitsOnly(e.files, e.files[b].path, keys);
  }

  lemma SameDerivation(d: Data, e: Data, k: ShardKey)
    requires Members(d, k) == Members(e, k)
    requires forall b | b in Members(e, k) ::
               e.files[b].path == d.files[b].path && e.files[b].rowCount == d.files[b].rowCount
               && Deleted(d, d.files[b].path) == Deleted(e, e.files[b].path)
    ensures Derive(d, k) == Derive(e, k)
  {
    assert DeletedPerFile(d, k) == DeletedPerFile(e, k);
  }

  lemma UntouchedShard(d: Data, e: Data, keys: set<ShardKey>, k: ShardKey)
    requires NotAhead(d) && NotAhead(e) && FilesTouch(d, e, keys) && DvsTouch(d, e, keys) && k !in keys
    ensures Derive(d, k) == Derive(e, k)
  {
    SameMembers(d, e, keys, k);
    forall b | b in Members(e, k)
      ensures e.files[b].path == d.files[b].path && e.files[b].rowCount == d.files[b].rowCount
      ensures Deleted(d, d.files[b].path) == Deleted(e, e.files[b].path)
    {
      SameCards(d, e, keys, k, b);
    }
    SameDerivation(d, e, k);
  }

  lemma RefreshIsFaithful(tasks: map<ShardKey, Task>, d: Data, e: Data, keys: set<ShardKey>, clock: nat)
    requires Faithful(tasks, d) && forall k | k !in keys :: Derive(d, k) == Derive(e, k)
    ensures Faithful(Refresh(tasks, e, keys, clock), e)
  {
    forall k ensures FaithfulAt(Refresh(tasks, e, keys, clock), e, k) {
      assert FaithfulAt(tasks, d, k);
    }
  }

  // ---- each operation touches only the shards it refreshes

  lemma PathRefreshed(files: map<string, File>, path: string, paths: set<string>)
    requires UniquePaths(files) && path in paths
    ensures HitsOnly(files, path, KeysOfPaths(files, paths))
  {
    forall b | b in files && files[b].path == path ensures KeyOf(files[b]) in KeysOfPaths(files, paths) {
      var ids := set c | c in files && files[c].path == path;
      assert b in ids && Strings.Least(ids) == b;
      assert KeyOfPath(files, path) == Some(KeyOf(files[b]));
    }
  }

  lemma CommitTouches(d: Data, req: CommitRequest)
    requires req.batchId !in d.files
    ensures var e := DataCommit(d, req);
            FilesTouch(d, e, {ShardKey(req.table, req.shard)}) && DvsTouch(d, e, {ShardKey(req.table, req.shard)})
  {
  }

  lemma NewDvsTouch(d: Data, e: Data, added: seq<Dv>, next: nat, keys: set<ShardKey>)
    requires e.dvs == AddDvs(d.dvs, added, next) && UniquePaths(e.files)
    requires forall dv | dv in added :: dv.Key() !in d.dvs
    requires KeysOfPaths(e.files, Paths(added)) <= keys
    ensures DvsTouch(d, e, keys)
  {
    AddDvsSpec(d.dvs, added, next);
    forall x | x in e.dvs && x !in d.dvs ensures HitsOnly(e.files, e.dvs[x].path, keys) {
      var dv :| dv in added && dv.Key() == x && e.dvs[x] == StampDv(dv, next);
      assert dv.path in Paths(added);
      PathRefreshed(e.files, dv.path, Paths(added));
    }
  }

  lemma DeletionsTouch(d: Data, entries: seq<Dv>)
    requires UniquePaths(d.files)
    ensures var e := DataAddDvs(d, FreshDvs(d.dvs, entries));
            var keys := KeysOfPaths(e.files, Paths(FreshDvs(d.dvs, entries)));
            FilesTouch(d, e, keys) && DvsTouch(d, e, keys)
  {
    FreshDvsSpec(d.dvs, entries);
    var e := DataAddDvs(d, FreshDvs(d.dvs, entries));
    NewDvsTouch(d, e, FreshDvs(d.dvs, entries), d.snapshot + 1, KeysOfPaths(e.files, Paths(FreshDvs(d.dvs, entries))));
  }

  lemma NewFilesTouch(d: Data, e: Data, added: seq<File>, next: nat, keys: set<ShardKey>)
    requires e.files == AddFiles(d.files, added, next)
    requires forall f | f in added :: f.batchId !in d.files
    requires KeysOfFiles(added) <= keys
    ensures FilesTouch(d, e, keys)
  {
    AddFilesSpec(d.files, added, next);
    forall b | b in e.files && b !in d.files ensures KeyOf(e.files[b]) in keys {
      var f :| f in added && f.batchId == b && e.files[b] == f.(validFrom := next);
      assert KeyOf(f) in KeysOfFiles(added);
    }
    forall b | b in d.files ensures e.files[b] == d.files[b] {
      assert b !in BatchIds(added);
    }
  }

  lemma UpdateTouches(d: Data, entries: seq<Dv>, newFiles: seq<File>)
    requires UniquePaths(DataUpdate(d, FreshFiles(d.files, newFiles), FreshDvs(d.dvs, entries)).files)
    ensures var e := DataUpdate(d, FreshFiles(d.files, newFiles), FreshDvs(d.dvs, entries));
            var keys := KeysOfFiles(FreshFiles(d.files, newFiles))
                + KeysOfPaths(e.files, Paths(FreshDvs(d.dvs, entries)));
            FilesTouch(d, e, keys) && DvsTouch(d, e, keys)
  {
    var files, dvs := FreshFiles(d.files, newFiles), FreshDvs(d.dvs, entries);
    var e := DataUpdate(d, files, dvs);
    var keys := KeysOfFiles(files) + KeysOfPaths(e.files, Paths(dvs));
    FreshFilesSpec(d.files, newFiles);
    FreshDvsSpec(d.dvs, entries);
    NewFilesTouch(d, e, files, d.snapshot + 1, keys);
    NewDvsTouch(d, e, dvs, d.snapshot + 1, keys);
  }

  lemma PurgeTouches(d: Data, table: string)
    requires TablesMatch(DataPurge(d, table))
    ensures var e := DataPurge(d, table);
            var keys := KeysOfIds(d.files, Victims(d.files, table));
            FilesTouch(d, e, keys) && DvsTouch(d, e, keys)
  {
    var e := DataPurge(d, table);
    var keys := KeysOfIds(d.files, Victims(d.files, table));
    forall b | b in e.files && e.files[b].deletedAt != d.files[b].deletedAt ensures KeyOf(e.files[b]) in keys {
      assert b in Victims(d.files, table);
    }
    forall x | x in e.dvs && e.dvs[x].revokedAt != d.dvs[x].revokedAt ensures HitsOnly(e.files, e.dvs[x].path, keys) {
      assert e.dvs[x].table == table;
    }
  }

  lemma RevokeTouches(d: Data, path: string, at: nat)
    requires UniquePaths(d.files)
    ensures var e := DataRevoke(d, path, at);
            FilesTouch(d, e, KeysOfPaths(e.files, {path})) && DvsTouch(d, e, KeysOfPaths(e.files, {path}))
  {
    PathRefreshed(d.files, path, {path});
  }

  lemma DropShardTouches(d: Data, key: ShardKey)
    ensures FilesTouch(d, DataDropShard(d, key), {key}) && DvsTouch(d, DataDropShard(d, key), {key})
  {
  }

  /** Inputs and products of the compaction all belong to one shard, and products have fresh identifiers. */
  ghost predicate OneShard(files: map<string, File>, olds: seq<string>, news: seq<File>) {
    && news != []
    && (forall f | f in news :: KeyOf(f) == KeyOf(news[0]) && f.batchId !in files)
    && (forall id | id in olds && id in files :: KeyOf(files[id]) == KeyOf(news[0]))
  }

  lemma SwapTouches(d: Data, olds: seq<string>, news: seq<File>)
    requires OneShard(d.files, olds, news)
    ensures FilesTouch(d, DataSwap(d, olds, news), {KeyOf(news[0])})
            && DvsTouch(d, DataSwap(d, olds, news), {KeyOf(news[0])})
  {
    var mid := d.(files := Entomb(d.files, Ids(olds), d.snapshot + 1));
    var e := DataSwap(d, olds, news);
    NewFilesTouch(mid, e, news, d.snapshot + 1, {KeyOf(news[0])});
    forall b | b in e.files && b in d.files && e.files[b].deletedAt != d.files[b].deletedAt
      ensures KeyOf(e.files[b]) == KeyOf(news[0])
    {
      if b !in olds { assert mid.files[b] == d.files[b]; }
    }
  }

  // ---- one step

  ghost predicate Disciplined(s: State, op: Op) {
    && WellFormed(op)
    && !op.OpDropTable?
    && (op.OpCommitCompaction? ==> OneShard(s.data.files, op.olds, op.news))
    && (op.OpRevoke? ==> op.at <= s.data.snapshot)
  }

  lemma AddingTouches(s: State, op: Op)
    requires op.OpCommitFiles? || op.OpApplyDeletions? || op.OpApplyUpdate?
    requires UniquePaths(Step(s, op).data.files) && Step(s, op).data.snapshot != s.data.snapshot
    ensures var e := Step(s, op).data;
            FilesTouch(s.data, e, Refreshed(s.data, e, op)) && DvsTouch(s.data, e, Refreshed(s.data, e, op))
  {
    match op {
      case OpCommitFiles(req, _) => CommitTouches(s.data, req);
      case OpApplyDeletions(entries, _) => DeletionsTouch(s.data, entries);
      case OpApplyUpdate(entries, newFiles, _, _) => UpdateTouches(s.data, entries, newFiles);
      case _ =>
    }
  }

  lemma PurgeEffect(s: State, op: Op)
    requires op.OpPurge? && Step(s, op).data.snapshot != s.data.snapshot
    ensures Step(s, op).data == DataPurge(s.data, op.table)
  {
  }

  lemma PurgingTouches(s: State, op: Op)
    requires op.OpPurge? && TablesMatch(Step(s, op).data) && Step(s, op).data.snapshot != s.data.snapshot
    ensures var e := Step(s, op).data;
            FilesTouch(s.data, e, Refreshed(s.data, e, op)) && DvsTouch(s.data, e, Refreshed(s.data, e, op))
  {
    PurgeEffect(s, op);
    PurgeTouches(s.data, op.table);
  }

  lemma RemovingTouches(s: State, op: Op)
    requires op.OpDropShard? || (op.OpRevoke? && DvsOfPath(s.data.dvs, op.path) != {})
    requires UniquePaths(s.data.files)
    ensures var e := Step(s, op).data;
            FilesTouch(s.data, e, Refreshed(s.data, e, op)) && DvsTouch(s.data, e, Refreshed(s.data, e, op))
  {
    if op.OpRevoke? { RevokeTouches(s.data, op.path, op.at); } else { DropShardTouches(s.data, op.key); }
  }

  lemma StepTouches(s: State, op: Op)
    requires Disciplined(s, op) && Clean(s.data) && Clean(Step(s, op).data)
    requires TookEffect(s.data, Step(s, op).data, op)
    ensures var e := Step(s, op).data;
            FilesTouch(s.data, e, Refreshed(s.data, e, op)) && DvsTouch(s.data, e, Refreshed(s.data, e, op))
  {
    if op.OpCommitCompaction? {
      SwapTouches(s.data, op.olds, op.news);
    } else if op.OpPurge? {
      PurgingTouches(s, op);
    } else if op.OpDropShard? || op.OpRevoke? {
      RemovingTouches(s, op);
    } else {
      EffectAdds(s, op);
      AddingTouches(s, op);
    }
  }

  lemma EffectAdds(s: State, op: Op)
    requires TookEffect(s.data, Step(s, op).data, op)
    requires !op.OpDropTable? && !op.OpCommitCompaction? && !op.OpPurge? && !op.OpDropShard? && !op.OpRevoke?
    ensures op.OpCommitFiles? || op.OpApplyDeletions? || op.OpApplyUpdate?
  {
  }

  lemma NoEffect(s: State, op: Op)
    requires !TookEffect(s.data, Step(s, op).data, op) && !op.OpDropTable?
    ensures Step(s, op).data == s.data
  {
  }

  lemma StepFaithful(c: Catalog, op: Op)
    requires Disciplined(c.state, op) && Clean(c.state.data) && Clean(Step(c.state, op).data)
    requires Faithful(c.tasks, c.state.data)
    ensures Faithful(FullStep(c, op).tasks, Step(c.state, op).data)
  {
    var d, e := c.state.data, Step(c.state, op).data;
    if TookEffect(d, e, op) {
      var keys := Refreshed(d, e, op);
      StepTouches(c.state, op);
      forall k | k !in keys ensures Derive(d, k) == Derive(e, k) {
        UntouchedShard(d, e, keys, k);
      }
      RefreshIsFaithful(c.tasks, d, e, keys, RefreshClock(op));
    } else {
      NoEffect(c.state, op);
    }
  }

  // ---- whole runs

  ghost predicate DisciplinedRun(s: State, ops: seq<Op>)
    decreases |ops|
  {
    && UniquePaths(s.data.files) && TablesMatch(s.data)
    && (ops == [] || (Disciplined(s, ops[0]) && DisciplinedRun(Step(s, ops[0]), ops[1..])))
  }

  lemma StepClean(s: State, op: Op)
    requires Clean(s.data) && Disciplined(s, op)
    requires UniquePaths(Step(s, op).data.files) && TablesMatch(Step(s, op).data)
    ensures Clean(Step(s, op).data)
  {
    var e := Step(s, op).data;
    DataStepValid(s, op);
    StepAdvances(s, op);
    forall k | k in e.dvs ensures e.dvs[k].revokedAt <= e.snapshot {
      if k in s.data.dvs {
        assert DvAdvances(s.data.dvs[k], e.dvs[k], s.data.snapshot, e.snapshot, op);
      }
    }
  }

  lemma {:induction false} RunFaithful(c: Catalog, ops: seq<Op>)
    requires Clean(c.state.data) && Faithful(c.tasks, c.state.data) && DisciplinedRun(c.state, ops)
    ensures FullRun(c, ops).state == Run(c.state, ops)
    ensures Faithful(FullRun(c, ops).tasks, Run(c.state, ops).data)
    decreases |ops|
  {
    if ops != [] {
      var t := Step(c.state, ops[0]);
      StepClean(c.state, ops[0]);
      StepFaithful(c, ops[0]);
      RunFaithful(FullStep(c, ops[0]), ops[1..]);
    }
  }

  /** The incrementally refreshed directory is the one a restore would rebuild from scratch. */
  lemma DirectoryIsRebuilt(ops: seq<Op>)
    requires DisciplinedRun(Initial(), ops)
    ensures var c := FullRun(Catalog(Initial(), map[]), ops);
            SameTasks(c.tasks, Rebuilt(c.state.data))
  {
    var start := Catalog(Initial(), map[]);
    forall k ensures FaithfulAt(map[], Initial().data, k) {
      NoFilesNoTask(Initial().data, k);
    }
    RunFaithful(start, ops);
    FaithfulIsRebuilt(FullRun(start, ops).tasks, FullRun(start, ops).state.data);
  }

  // ---- dropping a table breaks the index exactly when one of its shards has a task

  lemma DropKeepsOthers(d: Data, table: string, k: ShardKey)
    requires Clean(d) && k.table != table
    ensures Derive(DataDropTable(d, table), k) == Derive(d, k)
  {
    var e := DataDropTable(d, table);
    forall b ensures b in Members(d, k) <==> b in Members(e, k) {
    }
    assert Members(d, k) == Members(e, k);
    forall b | b in Members(e, k) ensures Deleted(d, d.files[b].path) == Deleted(e, e.files[b].path) {
      assert Cards(d, d.files[b].path) == Cards(e, e.files[b].path);
    }
    SameDerivation(d, e, k);
  }

  lemma DropStep(c: Catalog, table: string)
    requires table in c.state.registry.tables
    ensures FullStep(c, OpDropTable(table)).state.data == DataDropTable(c.state.data, table)
    ensures FullStep(c, OpDropTable(table)).tasks == c.tasks
  {
  }

  lemma FaithfulAfterDrop(tasks: map<ShardKey, Task>, d: Data, table: string, k: ShardKey)
    requires Clean(d) && FaithfulAt(tasks, d, k)
    ensures FaithfulAt(tasks, DataDropTable(d, table), k) <==> k.table != table || k !in tasks
  {
    if k.table != table { DropKeepsOthers(d, table, k); } else { NoFilesNoTask(DataDropTable(d, table), k); }
  }

  lemma DropTableFaithfulIff(c: Catalog, table: string)
    requires Clean(c.state.data) && Faithful(c.tasks, c.state.data) && table in c.state.registry.tables
    ensures var after := FullStep(c, OpDropTable(table));
            Faithful(after.tasks, after.state.data) <==> forall k | k in c.tasks :: k.table != table
  {
    DropStep(c, table);
    forall k ensures FaithfulAt(c.tasks, DataDropTable(c.state.data, table), k) <==> k.table != table || k !in c.tasks {
      FaithfulAfterDrop(c.tasks, c.state.data, table, k);
    }
  }

  // ---- the age of a task

  /** Once its age is known a task keeps it for as long as the shard stays in the directory. */
  lemma AgeIsKept(c: Catalog, op: Op, k: ShardKey)
    requires k in c.tasks && c.tasks[k].since != 0 && k in FullStep(c, op).tasks
    ensures FullStep(c, op).tasks[k].since == c.tasks[k].since
  {
  }

  ghost predicate StaysListed(c: Catalog, ops: seq<Op>, k: ShardKey)
    decreases |ops|
  {
    k in c.tasks && (ops == [] || StaysListed(FullStep(c, ops[0]), ops[1..], k))
  }

  /** Over any run during which the shard never leaves the directory, its task keeps its known age. */
  lemma {:induction false} AgeIsKeptThroughout(c: Catalog, ops: seq<Op>, k: ShardKey)
    requires StaysListed(c, ops, k) && c.tasks[k].since != 0
    ensures k in FullRun(c, ops).tasks && FullRun(c, ops).tasks[k].since == c.tasks[k].since
    decreases |ops|
  {
    if ops != [] {
      AgeIsKept(c, ops[0], k);
      AgeIsKeptThroughout(FullStep(c, ops[0]), ops[1..], k);
    }
  }
}

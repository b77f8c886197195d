/** Incremental synchronisation of a client's manifest gives what a full reload would give. */
module Sync {
  import opened CatalogModel
  import opened CatalogOps
  import opened Evolution
  import Strings

  // ---- the changes since a snapshot

  predicate ChangedSince(f: File, since: nat) {
    f.validFrom > since || (f.deletedAt != 0 && f.deletedAt > since)
  }

  /** Relative to an earlier manifest, every file is unchanged or carries a mark later than `since`. */
  ghost predicate Covers(copy: map<string, File>, cur: map<string, File>, since: nat) {
    && copy.Keys <= cur.Keys
    && forall b | b in cur :: (b in copy && cur[b] == copy[b]) || ChangedSince(cur[b], since)
  }

  lemma StepCovers(copy: map<string, File>, d: Data, e: Data, over: set<string>, live: bool, since: nat)
    requires Covers(copy, d.files, since) && since <= d.snapshot && FilesAdvance(d, e, over, live)
    ensures Covers(copy, e.files, since)
  {
    forall b | b in e.files ensures (b in copy && e.files[b] == copy[b]) || ChangedSince(e.files[b], since) {
      if b in d.files {
        assert FileAdvances(d.files[b], e.files[b], b, d.snapshot, e.snapshot, b in over, live);
      }
    }
  }

  ghost predicate NoDrop(ops: seq<Op>) {
    forall op | op in ops :: !op.OpDropTable?
  }

  lemma {:induction false} RunCovers(copy: map<string, File>, s: State, ops: seq<Op>, since: nat)
    requires Covers(copy, s.data.files, since) && since <= s.data.snapshot && NoDrop(ops)
    ensures Covers(copy, Run(s, ops).data.files, since)
    decreases |ops|
  {
    if ops != [] {
      var next := Step(s, ops[0]);
      StepAdvances(s, ops[0]);
      StepCovers(copy, s.data, next.data, Overwritten(s.data.files, ops[0]), WellFormed(ops[0]), since);
      RunCovers(copy, next, ops[1..], since);
    }
  }

  lemma OverlayCovers(copy: map<string, File>, d: Data, since: nat)
    requires Covers(copy, d.files, since)
    ensures copy + FilesSince(d, since) == d.files
  {
  }

  /** Overwriting the client's copy with the changes since its snapshot gives the server's manifest. */
  lemma IncrementalEqualsFull(s: State, ops: seq<Op>)
    requires NoDrop(ops)
    ensures s.data.files + FilesSince(Run(s, ops).data, s.data.snapshot) == Run(s, ops).data.files
  {
    RunCovers(s.data.files, s, ops, s.data.snapshot);
    OverlayCovers(s.data.files, Run(s, ops).data, s.data.snapshot);
  }

  // ---- the tables that changed

  function TableFiles(files: map<string, File>, table: string): map<string, File> {
    map b | b in files && files[b].table == table :: files[b]
  }

  /** The table got a manifest version later than `since`. */
  ghost predicate BumpedSince(v: Counters, table: string, since: nat) {
    table in v.tableVer && since < v.tableVer[table] <= v.manifestVer
  }

  /** Versions only grow from `v` to `w`. */
  ghost predicate VersionsGrow(v: Counters, w: Counters) {
    && v.manifestVer <= w.manifestVer
    && forall t | t in v.tableVer ::
         t in w.tableVer && (w.tableVer[t] == v.tableVer[t] || BumpedSince(w, t, v.manifestVer))
  }

  lemma BumpAllGrows(v: Counters, tables: seq<string>)
    ensures VersionsGrow(v, BumpAll(v, tables))
    ensures forall t | t in tables :: BumpedSince(BumpAll(v, tables), t, v.manifestVer)
  {
    VersionsSpec(v.tableVer, v.manifestVer, tables);
  }

  lemma SwapGrows(v: Counters, touched: set<string>, table: string)
    ensures VersionsGrow(v, Applied(BumpAll(v, Strings.Listing(touched))))
    ensures table in touched ==> BumpedSince(Applied(BumpAll(v, Strings.Listing(touched))), table, v.manifestVer)
  {
    BumpAllGrows(v, Strings.Listing(touched));
    Strings.ListingSpec(touched);
  }

  lemma CompactionGrows(s: State, op: Op)
    requires op.OpCommitCompaction?
    ensures VersionsGrow(s.ver, Step(s, op).ver)
  {
    SwapGrows(s.ver, TouchedTables(s.data.files, op.olds, op.news), "");
  }

  lemma PlainGrows(s: State, op: Op)
    requires !op.OpCommitCompaction?
    ensures VersionsGrow(s.ver, Step(s, op).ver)
  {
  }

  lemma StepVersionsGrow(s: State, op: Op)
    ensures VersionsGrow(s.ver, Step(s, op).ver)
  {
    if op.OpCommitCompaction? { CompactionGrows(s, op); } else { PlainGrows(s, op); }
  }

  /** Compaction products that take an existing identifier take it from a file of their own tables. */
  ghost predicate KeepsTables(files: map<string, File>, op: Op) {
    op.OpCommitCompaction? ==>
      forall b | b in Overwritten(files, op) :: files[b].table in TouchedTables(files, op.olds, op.news)
  }

  lemma SwapTouches(d: Data, olds: seq<string>, news: seq<File>, table: string)
    requires table !in TouchedTables(d.files, olds, news)
    requires forall b | b in BatchIds(news) * d.files.Keys :: d.files[b].table in TouchedTables(d.files, olds, news)
    ensures TableFiles(DataSwap(d, olds, news).files, table) == TableFiles(d.files, table)
  {
    var after := DataSwap(d, olds, news).files;
    forall b ensures (b in after && after[b].table == table) <==> (b in d.files && d.files[b].table == table) {
      SwapTouchesOne(d, olds, news, table, b);
    }
    forall b | b in d.files && d.files[b].table == table ensures b in after && after[b] == d.files[b] {
      SwapTouchesOne(d, olds, news, table, b);
    }
  }

  lemma ProductTouched(d: Data, olds: seq<string>, news: seq<File>, b: string)
    requires b in BatchIds(news)
    ensures var after := DataSwap(d, olds, news).files;
            b in after && after[b].table in TouchedTables(d.files, olds, news)
  {
    var e, next := Entomb(d.files, Ids(olds), d.snapshot + 1), d.snapshot + 1;
    AddFilesSpec(e, news, next);
    var f :| f in news && f.batchId == b && AddFiles(e, news, next)[b] == f.(validFrom := next);
    assert f.table in TouchedTables(d.files, olds, news);
  }

  /** A file that is no product is there afterwards as it was, but for the end of an input. */
  lemma SwapKeepsOther(d: Data, olds: seq<string>, news: seq<File>, b: string)
    requires b !in BatchIds(news)
    ensures var after := DataSwap(d, olds, news).files;
            && (b in after <==> b in d.files) && (b in d.files ==> after[b].table == d.files[b].table)
            && (b in d.files && b !in olds ==> after[b] == d.files[b])
  {
    var e, next := Entomb(d.files, Ids(olds), d.snapshot + 1), d.snapshot + 1;
    AddFilesSpec(e, news, next);
  }

  /** A product and an input are of touched tables, and any other file stays as it is. */
  lemma SwapTouchesOne(d: Data, olds: seq<string>, news: seq<File>, table: string, b: string)
    requires table !in TouchedTables(d.files, olds, news)
    requires forall x | x in BatchIds(news) * d.files.Keys :: d.files[x].table in TouchedTables(d.files, olds, news)
    ensures var after := DataSwap(d, olds, news).files;
            && ((b in after && after[b].table == table) <==> (b in d.files && d.files[b].table == table))
            && (b in d.files && d.files[b].table == table ==> after[b] == d.files[b])
  {
    if b in BatchIds(news) {
      ProductTouched(d, olds, news, b);
    } else {
      SwapKeepsOther(d, olds, news, b);
      if b in olds && b in d.files { assert d.files[b].table in TouchedTables(d.files, olds, news); }
    }
  }

  lemma UpdateTouches(d: Data, newFiles: seq<File>, newDvs: seq<Dv>, updated: string, table: string)
    requires forall f | f in newFiles :: f.table == updated && f.batchId !in d.files
    requires table != updated
    ensures TableFiles(DataUpdate(d, newFiles, newDvs).files, table) == TableFiles(d.files, table)
  {
    AddFilesSpec(d.files, newFiles, d.snapshot + 1);
    var after := AddFiles(d.files, newFiles, d.snapshot + 1);
    forall b | b in BatchIds(newFiles) ensures b !in d.files && after[b].table != table {
      var f :| f in newFiles && f.batchId == b && after[b] == f.(validFrom := d.snapshot + 1);
    }
    assert forall b | b in after && after[b].table == table :: b in d.files && after[b] == d.files[b];
  }

  /** If the files of the table changed from `s` to `t`, the table got a new version. */
  ghost predicate Reported(s: State, t: State, table: string) {
    TableFiles(t.data.files, table) != TableFiles(s.data.files, table) ==> BumpedSince(t.ver, table, s.ver.manifestVer)
  }

  lemma CompactionStepBumps(s: State, op: Op, table: string)
    requires op.OpCommitCompaction? && KeepsTables(s.data.files, op)
    ensures Reported(s, Step(s, op), table)
  {
    var touched := TouchedTables(s.data.files, op.olds, op.news);
    SwapGrows(s.ver, touched, table);
    if table !in touched { SwapTouches(s.data, op.olds, op.news, table); }
  }

  lemma UpdateStepBumps(s: State, op: Op, table: string)
    requires op.OpApplyUpdate?
    ensures Reported(s, Step(s, op), table)
  {
    var updated := UpdateTable(op.newFiles, op.entries);
    FreshFilesSpec(s.data.files, op.newFiles);
    if table != updated && OneTable(op.newFiles, op.entries, updated) {
      UpdateTouches(s.data, FreshFiles(s.data.files, op.newFiles), FreshDvs(s.data.dvs, op.entries), updated, table);
    }
  }

  lemma CommitTouches(d: Data, req: CommitRequest, table: string)
    requires req.batchId !in d.files && table != req.table
    ensures TableFiles(DataCommit(d, req).files, table) == TableFiles(d.files, table)
  {
  }

  lemma PurgeTouches(d: Data, purged: string, table: string)
    requires table != purged
    ensures TableFiles(DataPurge(d, purged).files, table) == TableFiles(d.files, table)
  {
  }

  lemma DropShardTouches(d: Data, key: ShardKey, table: string)
    requires table != key.table
    ensures TableFiles(DataDropShard(d, key).files, table) == TableFiles(d.files, table)
  {
  }

  lemma DropTableTouches(d: Data, dropped: string, table: string)
    requires table != dropped
    ensures TableFiles(DataDropTable(d, dropped).files, table) == TableFiles(d.files, table)
  {
  }

  lemma CommitStepBumps(s: State, op: Op, table: string)
    requires op.OpCommitFiles?
    ensures Reported(s, Step(s, op), table)
  {
    if table != op.req.table && op.req.batchId !in s.data.files { CommitTouches(s.data, op.req, table); }
  }

  lemma PurgeStepBumps(s: State, op: Op, table: string)
    requires op.OpPurge?
    ensures Reported(s, Step(s, op), table)
  {
    if table != op.table { PurgeTouches(s.data, op.table, table); }
  }

  lemma DropShardStepBumps(s: State, op: Op, table: string)
    requires op.OpDropShard?
    ensures Reported(s, Step(s, op), table)
  {
    if table != op.key.table { DropShardTouches(s.data, op.key, table); }
  }

  lemma DropTableStepBumps(s: State, op: Op, table: string)
    requires op.OpDropTable?
    ensures Reported(s, Step(s, op), table)
  {
    if table != op.table { DropTableTouches(s.data, op.table, table); }
  }

  /** A step that changes the files of a table gives the table a new manifest version. */
  lemma StepBumps(s: State, op: Op, table: string)
    requires KeepsTables(s.data.files, op)
    ensures Reported(s, Step(s, op), table)
  {
    if op.OpCommitCompaction? {
      CompactionStepBumps(s, op, table);
    } else if op.OpApplyUpdate? {
      UpdateStepBumps(s, op, table);
    } else if op.OpCommitFiles? {
      CommitStepBumps(s, op, table);
    } else if op.OpPurge? {
      PurgeStepBumps(s, op, table);
    } else if op.OpDropShard? {
      DropShardStepBumps(s, op, table);
    } else if op.OpDropTable? {
      DropTableStepBumps(s, op, table);
    } else {
      assert Step(s, op).data.files == s.data.files;
    }
  }

  ghost predicate KeepTables(s: State, ops: seq<Op>)
    decreases |ops|
  {
    ops == [] || (KeepsTables(s.data.files, ops[0]) && KeepTables(Step(s, ops[0]), ops[1..]))
  }

  lemma {:induction false} RunBumps(s: State, ops: seq<Op>, table: string, since: nat)
    requires KeepTables(s, ops) && since <= s.ver.manifestVer
    ensures since <= Run(s, ops).ver.manifestVer
    ensures BumpedSince(s.ver, table, since)
            || TableFiles(Run(s, ops).data.files, table) != TableFiles(s.data.files, table)
            ==> BumpedSince(Run(s, ops).ver, table, since)
    decreases |ops|
  {
    if ops != [] {
      var next := Step(s, ops[0]);
      StepVersionsGrow(s, ops[0]);
      StepBumps(s, ops[0], table);
      RunBumps(next, ops[1..], table, since);
    }
  }

  /** Every table whose files differ is reported, dropped tables included. */
  lemma DeltaComplete(s: State, ops: seq<Op>, table: string)
    requires KeepTables(s, ops)
    requires TableFiles(Run(s, ops).data.files, table) != TableFiles(s.data.files, table)
    ensures table in ManifestDelta(Run(s, ops).ver, s.ver.manifestVer)
  {
    RunBumps(s, ops, table, s.ver.manifestVer);
  }
}

/** How one operation moves the files and deletion vectors of the catalog.
    The theorems about whole runs only use this description of a step. */
module Evolution {
  import opened CatalogModel
  import opened CatalogOps
  import Strings

  // ---- the invariant of the state machine

  ghost predicate ValidData(d: Data) {
    && d.snapshot >= 1
    && (forall b | b in d.files :: d.files[b].batchId == b && d.files[b].validFrom <= d.snapshot
                                   && d.files[b].deletedAt <= d.snapshot)
    && (forall k | k in d.dvs :: d.dvs[k].Key() == k && d.dvs[k].appliedAt <= d.snapshot)
  }

  ghost predicate ValidCounters(v: Counters) {
    forall t | t in v.tableVer :: v.tableVer[t] <= v.manifestVer
  }

  ghost predicate ValidRegistry(r: Registry) {
    DEFAULT_SCHEMA in r.namespaces && forall i | i in r.datanodes :: r.datanodes[i].instanceId == i
  }

  ghost predicate ValidIdem(idem: map<string, Idem>) {
    forall k | k in idem :: idem[k].key == k
  }

  ghost predicate ValidLeases(leases: map<string, Lease>) {
    forall p | p in leases :: leases[p].purpose == p
  }

  ghost predicate ValidPurged(purged: map<string, nat>, snapshot: nat) {
    forall i | i in purged :: i != "" && purged[i] <= snapshot
  }

  ghost predicate Valid(s: State) {
    && ValidData(s.data)
    && ValidRegistry(s.registry)
    && ValidIdem(s.idem)
    && ValidPurged(s.purged, s.data.snapshot)
    && ValidLeases(s.leases)
    && ValidCounters(s.ver)
  }

  /** New files arrive without a tombstone. */
  predicate Live(files: seq<File>) {
    forall f | f in files :: f.deletedAt == 0
  }

  predicate WellFormed(op: Op) {
    match op
    case OpCommitFiles(req, _) => Live(req.files)
    case OpApplyUpdate(_, newFiles, _, _) => Live(newFiles)
    case OpCommitCompaction(_, news, _, _) => Live(news)
    case _ => true
  }

  // ---- the helpers that insert in order

  lemma {:induction false} AddFilesSpec(files: map<string, File>, added: seq<File>, next: nat)
    ensures AddFiles(files, added, next).Keys == files.Keys + BatchIds(added)
    ensures forall b | b in files && b !in BatchIds(added) :: AddFiles(files, added, next)[b] == files[b]
    ensures forall b | b in BatchIds(added) ::
              exists f :: f in added && f.batchId == b && AddFiles(files, added, next)[b] == f.(validFrom := next)
    decreases |added|
  {
    if added != [] {
      var f0, rest := added[0], added[1..];
      assert added == [f0] + rest;
      AddFilesSpec(files[f0.batchId := f0.(validFrom := next)], rest, next);
      assert BatchIds(added) == {f0.batchId} + BatchIds(rest);
      forall b | b in BatchIds(added)
        ensures exists f :: f in added && f.batchId == b && AddFiles(files, added, next)[b] == f.(validFrom := next)
      {
        if b in BatchIds(rest) {
          var f :| f in rest && f.batchId == b && AddFiles(files, added, next)[b] == f.(validFrom := next);
          assert f in added;
        } else {
          assert f0 in added;
        }
      }
    }
  }

  function DvKeys(entries: seq<Dv>): set<(string, string)> {
    set d | d in entries :: d.Key()
  }

  lemma {:induction false} AddDvsSpec(dvs: map<(string, string), Dv>, entries: seq<Dv>, next: nat)
    ensures AddDvs(dvs, entries, next).Keys == dvs.Keys + DvKeys(entries)
    ensures forall k | k in dvs && k !in DvKeys(entries) :: AddDvs(dvs, entries, next)[k] == dvs[k]
    ensures forall k | k in DvKeys(entries) ::
              exists d :: d in entries && d.Key() == k && AddDvs(dvs, entries, next)[k] == StampDv(d, next)
    decreases |entries|
  {
    if entries != [] {
      var d0, rest := entries[0], entries[1..];
      assert entries == [d0] + rest;
      AddDvsSpec(dvs[d0.Key() := StampDv(d0, next)], rest, next);
      assert DvKeys(entries) == {d0.Key()} + DvKeys(rest);
      forall k | k in DvKeys(entries)
        ensures exists d :: d in entries && d.Key() == k && AddDvs(dvs, entries, next)[k] == StampDv(d, next)
      {
        if k in DvKeys(rest) {
          var d :| d in rest && d.Key() == k && AddDvs(dvs, entries, next)[k] == StampDv(d, next);
          assert d in entries;
        } else {
          assert d0 in entries;
        }
      }
    }
  }

  lemma {:induction false} FreshDvsSpec(dvs: map<(string, string), Dv>, entries: seq<Dv>)
    ensures forall d :: d in FreshDvs(dvs, entries) <==> d in entries && d.Key() !in dvs
  {
    if entries != [] {
      FreshDvsSpec(dvs, entries[1..]);
      assert entries == [entries[0]] + entries[1..];
    }
  }

  lemma {:induction false} FreshFilesSpec(files: map<string, File>, added: seq<File>)
    ensures forall f :: f in FreshFiles(files, added) <==> f in added && f.batchId != "" && f.batchId !in files
  {
    if added != [] {
      FreshFilesSpec(files, added[1..]);
      assert added == [added[0]] + added[1..];
    }
  }

  lemma {:induction false} VersionsSpec(tableVer: map<string, nat>, ver: nat, tables: seq<string>)
    ensures var r := Versions(tableVer, ver, tables);
            && r.Keys == tableVer.Keys + (set t | t in tables)
            && (forall t | t in tables :: ver < r[t] <= ver + |tables|)
            && (forall t | t in tableVer && t !in tables :: r[t] == tableVer[t])
    decreases |tables|
  {
    if tables != [] {
      assert tables == [tables[0]] + tables[1..];
      VersionsSpec(tableVer[tables[0] := ver + 1], ver + 1, tables[1..]);
    }
  }

  // ---- what one step does

  ghost predicate Entombed(f: File, g: File, at: nat) {
    f.deletedAt == 0 && g == f.(deletedAt := at)
  }

  /** The existing files that a compaction commit would overwrite: product ids must be fresh for this to be empty. */
  function Overwritten(files: map<string, File>, op: Op): set<string> {
    if op.OpCommitCompaction? then BatchIds(op.news) * files.Keys else {}
  }

  /** `g` entered the manifest under `b` at snapshot `to`; well-formed operations bring no tombstones. */
  ghost predicate Born(g: File, b: string, to: nat, live: bool) {
    g.validFrom == to && g.batchId == b && (live ==> g.deletedAt == 0)
  }

  ghost predicate FileAdvances(f: File, g: File, b: string, from: nat, to: nat, over: bool, live: bool) {
    g == f || (to == from + 1 && if over then Born(g, b, to, live) else Entombed(f, g, to))
  }

  /** From `d` to `e`, files were added and live files were entombed, and nothing else changed. */
  ghost predicate FilesAdvance(d: Data, e: Data, over: set<string>, live: bool) {
    && d.snapshot <= e.snapshot <= d.snapshot + 1
    && d.files.Keys <= e.files.Keys
    && (forall b | b in d.files :: FileAdvances(d.files[b], e.files[b], b, d.snapshot, e.snapshot, b in over, live))
    && (forall b | b in e.files && b !in d.files ::
          e.snapshot == d.snapshot + 1 && Born(e.files[b], b, e.snapshot, live))
  }

  ghost predicate DvAdvances(d: Dv, e: Dv, from: nat, to: nat, op: Op) {
    e == d || (d.revokedAt == 0 && if op.OpRevoke? then d.path == op.path && e == d.(revokedAt := op.at)
                                   else to == from + 1 && e == d.(revokedAt := to))
  }

  ghost predicate DvsAdvance(d: Data, e: Data, op: Op) {
    && d.dvs.Keys <= e.dvs.Keys
    && (forall k | k in d.dvs :: DvAdvances(d.dvs[k], e.dvs[k], d.snapshot, e.snapshot, op))
    && (forall k | k in e.dvs && k !in d.dvs ::
          e.snapshot == d.snapshot + 1 && e.dvs[k].Key() == k && e.dvs[k].appliedAt == e.snapshot
          && e.dvs[k].revokedAt == 0)
  }

  ghost predicate Advances(d: Data, e: Data, op: Op) {
    FilesAdvance(d, e, Overwritten(d.files, op), WellFormed(op)) && DvsAdvance(d, e, op)
  }

  lemma CommitAdvances(d: Data, op: Op)
    requires op.OpCommitFiles? && op.req.batchId !in d.files
    ensures Advances(d, DataCommit(d, op.req), op)
  {
  }

  lemma PurgeAdvances(d: Data, op: Op)
    requires op.OpPurge?
    ensures Advances(d, DataPurge(d, op.table), op)
  {
  }

  lemma DeletionsAdvance(d: Data, op: Op)
    requires op.OpApplyDeletions?
    ensures Advances(d, DataAddDvs(d, FreshDvs(d.dvs, op.entries)), op)
  {
    FreshDvsSpec(d.dvs, op.entries);
    AddDvsSpec(d.dvs, FreshDvs(d.dvs, op.entries), d.snapshot + 1);
  }

  lemma UpdateAdvances(d: Data, op: Op)
    requires op.OpApplyUpdate?
    ensures Advances(d, DataUpdate(d, FreshFiles(d.files, op.newFiles), FreshDvs(d.dvs, op.entries)), op)
  {
    FreshFilesSpec(d.files, op.newFiles);
    FreshDvsSpec(d.dvs, op.entries);
    AddFilesSpec(d.files, FreshFiles(d.files, op.newFiles), d.snapshot + 1);
    AddDvsSpec(d.dvs, FreshDvs(d.dvs, op.entries), d.snapshot + 1);
  }

  lemma RevokeAdvances(d: Data, op: Op)
    requires op.OpRevoke?
    ensures Advances(d, DataRevoke(d, op.path, op.at), op)
  {
  }

  lemma DropShardAdvances(d: Data, op: Op)
    requires op.OpDropShard?
    ensures Advances(d, DataDropShard(d, op.key), op)
  {
  }

  lemma SwapAdvances(d: Data, op: Op)
    requires op.OpCommitCompaction? && !InputGone(d.files, op.olds)
    ensures Advances(d, DataSwap(d, op.olds, op.news), op)
  {
    var e := DataSwap(d, op.olds, op.news);
    AddFilesSpec(Entomb(d.files, Ids(op.olds), d.snapshot + 1), op.news, d.snapshot + 1);
    forall b | b in e.files ensures SwapsOne(d, e, op, b) { SwapAdvancesOne(d, op, b); }
  }

  ghost predicate SwapsOne(d: Data, e: Data, op: Op, b: string)
    requires op.OpCommitCompaction? && b in e.files
  {
    if b in d.files
    then FileAdvances(d.files[b], e.files[b], b, d.snapshot, e.snapshot, b in Overwritten(d.files, op), WellFormed(op))
    else Born(e.files[b], b, e.snapshot, WellFormed(op))
  }

  lemma SwapAdvancesOne(d: Data, op: Op, b: string)
    requires op.OpCommitCompaction? && !InputGone(d.files, op.olds) && b in DataSwap(d, op.olds, op.news).files
    ensures SwapsOne(d, DataSwap(d, op.olds, op.news), op, b)
  {
    AddFilesSpec(Entomb(d.files, Ids(op.olds), d.snapshot + 1), op.news, d.snapshot + 1);
  }

  /** Every operation except dropping a table only adds files, entombs live ones, adds deletion
      vectors and revokes unrevoked ones. */
  lemma StepAdvances(s: State, op: Op)
    requires !op.OpDropTable?
    ensures Advances(s.data, Step(s, op).data, op)
  {
    if Step(s, op).data != s.data {
      match op {
        case OpCommitFiles(_, _) => CommitAdvances(s.data, op);
        case OpApplyDeletions(_, _) => DeletionsAdvance(s.data, op);
        case OpApplyUpdate(_, _, _, _) => UpdateAdvances(s.data, op);
        case OpPurge(_, _, _) => PurgeAdvances(s.data, op);
        case OpRevoke(_, _, _) => RevokeAdvances(s.data, op);
        case OpDropShard(_, _) => DropShardAdvances(s.data, op);
        case OpCommitCompaction(_, _, _, _) => SwapAdvances(s.data, op);
        case _ =>
      }
    }
  }

  // ---- the invariant holds in every reachable state

  lemma InitialValid()
    ensures Valid(Initial())
  {
  }

  lemma AdvanceValid(d: Data, e: Data, op: Op)
    requires ValidData(d) && Advances(d, e, op) && WellFormed(op)
    ensures ValidData(e)
  {
    forall b | b in e.files
      ensures e.files[b].batchId == b && e.files[b].validFrom <= e.snapshot && e.files[b].deletedAt <= e.snapshot
    {
      if b in d.files {
        assert FileAdvances(d.files[b], e.files[b], b, d.snapshot, e.snapshot, b in Overwritten(d.files, op), true);
      }
    }
    forall k | k in e.dvs ensures e.dvs[k].Key() == k && e.dvs[k].appliedAt <= e.snapshot {
      if k in d.dvs {
        assert DvAdvances(d.dvs[k], e.dvs[k], d.snapshot, e.snapshot, op);
      }
    }
  }

  lemma DataStepValid(s: State, op: Op)
    requires ValidData(s.data) && WellFormed(op)
    ensures ValidData(Step(s, op).data)
  {
    if !op.OpDropTable? {
      StepAdvances(s, op);
      AdvanceValid(s.data, Step(s, op).data, op);
    }
  }

  lemma BumpAllValid(v: Counters, tables: seq<string>)
    requires ValidCounters(v)
    ensures ValidCounters(BumpAll(v, tables))
  {
    VersionsSpec(v.tableVer, v.manifestVer, tables);
  }

  lemma CountersStepValid(s: State, op: Op)
    requires ValidCounters(s.ver)
    ensures ValidCounters(Step(s, op).ver)
  {
    if op.OpCommitCompaction? {
      BumpAllValid(s.ver, Strings.Listing(TouchedTables(s.data.files, op.olds, op.news)));
    }
  }

  lemma RegistryStepValid(s: State, op: Op)
    requires ValidRegistry(s.registry)
    ensures ValidRegistry(Step(s, op).registry)
  {
  }

  lemma IdemStepValid(s: State, op: Op)
    requires ValidIdem(s.idem)
    ensures ValidIdem(Step(s, op).idem)
  {
  }

  lemma LeasesStepValid(s: State, op: Op)
    requires ValidLeases(s.leases)
    ensures ValidLeases(Step(s, op).leases)
  {
  }

  lemma PurgedStepValid(s: State, op: Op)
    requires ValidPurged(s.purged, s.data.snapshot)
    ensures ValidPurged(Step(s, op).purged, Step(s, op).data.snapshot)
  {
    if !op.OpDropTable? { StepAdvances(s, op); }
  }

  lemma StepValid(s: State, op: Op)
    requires Valid(s) && WellFormed(op)
    ensures Valid(Step(s, op))
  {
    DataStepValid(s, op);
    CountersStepValid(s, op);
    RegistryStepValid(s, op);
    IdemStepValid(s, op);
    LeasesStepValid(s, op);
    PurgedStepValid(s, op);
  }

  lemma {:induction false} RunValid(s: State, ops: seq<Op>)
    requires Valid(s) && forall op | op in ops :: WellFormed(op)
    ensures Valid(Run(s, ops))
    decreases |ops|
  {
    if ops != [] {
      StepValid(s, ops[0]);
      RunValid(Step(s, ops[0]), ops[1..]);
    }
  }
}

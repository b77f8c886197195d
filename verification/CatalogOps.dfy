/** What every operation of the catalog state machine does, as a function on states.
    Table names are canonical (`schema.table`), so normalising one leaves it unchanged. */
module CatalogOps {
  import opened CatalogModel
  import Strings

  // ---------------------------------------------------------------- versions

  function Structural(v: Counters): Counters {
    v.(schemaVer := v.schemaVer + 1)
  }

  function BumpManifest(v: Counters, table: string): Counters {
    v.(manifestVer := v.manifestVer + 1, tableVer := v.tableVer[table := v.manifestVer + 1])
  }

  function Applied(v: Counters): Counters {
    v.(lastApplied := v.lastApplied + 1)
  }

  /** One version number per table, in the order given, starting after `ver`. */
  function Versions(tableVer: map<string, nat>, ver: nat, tables: seq<string>): map<string, nat>
    decreases |tables|
  {
    if tables == [] then tableVer else Versions(tableVer[tables[0] := ver + 1], ver + 1, tables[1..])
  }

  function BumpAll(v: Counters, tables: seq<string>): Counters {
    v.(manifestVer := v.manifestVer + |tables|, tableVer := Versions(v.tableVer, v.manifestVer, tables))
  }

  // ---------------------------------------------------------------- committing files

  datatype CommitRequest = CommitRequest(
    table: string, batchId: string, clientKey: Option<string>, clientKeys: seq<string>,
    shard: string, window: string, files: seq<File>, schemaVersion: nat)
  {
    function Keys(): seq<string> {
      clientKeys + if clientKey.Some? then [clientKey.value] else []
    }

    function Stamp(f: File, next: nat): File {
      f.(validFrom := next, batchId := batchId, schemaVersion := schemaVersion, shard := shard,
         window := window, table := table,
         clientKey := if clientKeys != [] then clientKeys[0]
                      else if clientKey.Some? then clientKey.value else "")
    }
  }

  datatype CommitResponse = CommitResponse(accepted: bool, snapshot: nat, commitIndex: nat)

  predicate KeyTaken(idem: map<string, Idem>, keys: seq<string>, batchId: string) {
    exists k :: k in keys && k in idem && idem[k].batchId != "" && idem[k].batchId != batchId
  }

  function Claims(req: CommitRequest, nowSecs: nat): map<string, Idem> {
    map k | k in req.Keys() :: Idem(k, req.batchId, nowSecs)
  }

  predicate CommitAccepted(s: State, req: CommitRequest) {
    |req.files| <= 1 && req.batchId !in s.data.files && !KeyTaken(s.idem, req.Keys(), req.batchId)
  }

  function DataCommit(d: Data, req: CommitRequest): Data {
    d.(snapshot := d.snapshot + 1,
       files := if req.files == [] then d.files
                else d.files[req.batchId := req.Stamp(req.files[0], d.snapshot + 1)])
  }

  function CommitFiles(s: State, req: CommitRequest, nowSecs: nat): (State, Result<CommitResponse>) {
    if |req.files| > 1 then (s, Err(TooManyFiles))
    else if req.batchId in s.data.files then
      (s, Ok(CommitResponse(false, s.data.snapshot, s.ver.lastApplied)))
    else if KeyTaken(s.idem, req.Keys(), req.batchId) then
      (s.(inFlight := s.inFlight - {req.batchId}),
       Ok(CommitResponse(false, s.data.snapshot, s.ver.lastApplied)))
    else
      (s.(data := DataCommit(s.data, req), idem := s.idem + Claims(req, nowSecs),
          inFlight := s.inFlight - {req.batchId}, ver := Applied(BumpManifest(s.ver, req.table))),
       Ok(CommitResponse(true, s.data.snapshot + 1, s.ver.lastApplied + 1)))
  }

  // ---------------------------------------------------------------- purging a table

  datatype PurgeOutcome = PurgeOutcome(snapshot: nat, files: nat, revoked: nat)

  function Victims(files: map<string, File>, table: string): set<string> {
    set b | b in files && files[b].table == table && files[b].deletedAt == 0
  }

  function Entomb(files: map<string, File>, ids: set<string>, at: nat): map<string, File> {
    map b | b in files :: if b in ids then files[b].(deletedAt := at) else files[b]
  }

  function LiveDvsOfTable(dvs: map<(string, string), Dv>, table: string): set<(string, string)> {
    set k | k in dvs && dvs[k].table == table && dvs[k].revokedAt == 0
  }

  function RevokeKeys(dvs: map<(string, string), Dv>, keys: set<(string, string)>, at: nat)
    : map<(string, string), Dv>
  {
    map k | k in dvs :: if k in keys then dvs[k].(revokedAt := at) else dvs[k]
  }

  function DataPurge(d: Data, table: string): Data {
    Data(Entomb(d.files, Victims(d.files, table), d.snapshot + 1),
         RevokeKeys(d.dvs, LiveDvsOfTable(d.dvs, table), d.snapshot + 1),
         d.snapshot + 1)
  }

  function PurgeTable(s: State, table: string, purgeId: string): (State, Result<PurgeOutcome>) {
    if purgeId == "" then (s, Err(MissingPurgeId))
    else if purgeId in s.purged then (s, Ok(PurgeOutcome(s.purged[purgeId], 0, 0)))
    else if Victims(s.data.files, table) == {} then
      (s.(purged := s.purged[purgeId := s.data.snapshot]), Ok(PurgeOutcome(s.data.snapshot, 0, 0)))
    else
      (s.(data := DataPurge(s.data, table), purged := s.purged[purgeId := s.data.snapshot + 1],
          ver := Applied(BumpManifest(s.ver, table))),
       Ok(PurgeOutcome(s.data.snapshot + 1, |Victims(s.data.files, table)|, |LiveDvsOfTable(s.data.dvs, table)|)))
  }

  // ---------------------------------------------------------------- deletion vectors

  predicate AnchorDead(files: map<string, File>, d: Dv) {
    d.batchId in files && files[d.batchId].deletedAt != 0
  }

  /** The first reason, in the order of the request, to refuse it. */
  function FirstRefusal(files: map<string, File>, entries: seq<Dv>): Option<Error> {
    if entries == [] then None
    else
      var d := entries[0];
      if d.dvId == "" || d.table == "" || d.path == "" then Some(MissingField)
      else if d.card == 0 then Some(EmptyDeletion)
      else if AnchorDead(files, d) then Some(AnchorGone)
      else FirstRefusal(files, entries[1..])
  }

  function FreshDvs(dvs: map<(string, string), Dv>, entries: seq<Dv>): seq<Dv> {
    if entries == [] then []
    else (if entries[0].Key() in dvs then [] else [entries[0]]) + FreshDvs(dvs, entries[1..])
  }

  function StampDv(d: Dv, next: nat): Dv {
    d.(appliedAt := next, revokedAt := 0,
       storePath := if d.storePath == "" then DvObjectPath(d.path, d.dvId) else d.storePath)
  }

  /** Registers the entries one after the other; a later entry with the same key wins. */
  function AddDvs(dvs: map<(string, string), Dv>, entries: seq<Dv>, next: nat): map<(string, string), Dv>
    decreases |entries|
  {
    if entries == [] then dvs
    else AddDvs(dvs[entries[0].Key() := StampDv(entries[0], next)], entries[1..], next)
  }

  function DataAddDvs(d: Data, added: seq<Dv>): Data {
    d.(snapshot := d.snapshot + 1, dvs := AddDvs(d.dvs, added, d.snapshot + 1))
  }

  function ApplyDeletions(s: State, entries: seq<Dv>): (State, Result<nat>) {
    var refusal := FirstRefusal(s.data.files, entries);
    var added := FreshDvs(s.data.dvs, entries);
    if refusal.Some? then (s, Err(refusal.value))
    else if added == [] then (s, Ok(s.data.snapshot))
    else (s.(data := DataAddDvs(s.data, added), ver := Structural(s.ver)), Ok(s.data.snapshot + 1))
  }

  // ---------------------------------------------------------------- updates

  function FreshFiles(files: map<string, File>, added: seq<File>): seq<File> {
    if added == [] then []
    else (if added[0].batchId == "" || added[0].batchId in files then [] else [added[0]])
         + FreshFiles(files, added[1..])
  }

  function AddFiles(files: map<string, File>, added: seq<File>, next: nat): map<string, File>
    decreases |added|
  {
    if added == [] then files
    else AddFiles(files[added[0].batchId := added[0].(validFrom := next)], added[1..], next)
  }

  /** The first reason to refuse the fresh deletion vectors of an update. */
  function FirstUpdateRefusal(files: map<string, File>, added: seq<Dv>): Option<Error> {
    if added == [] then None
    else
      var d := added[0];
      if d.dvId == "" || d.path == "" then Some(MissingField)
      else if AnchorDead(files, d) then Some(AnchorGone)
      else if d.card == 0 then Some(EmptyDeletion)
      else FirstUpdateRefusal(files, added[1..])
  }

  predicate OneTable(newFiles: seq<File>, entries: seq<Dv>, table: string) {
    (forall f | f in newFiles :: f.table == table) && (forall d | d in entries :: d.table == table)
  }

  /** The table of the first file, or of the first deletion vector if there is no file. */
  function UpdateTable(newFiles: seq<File>, entries: seq<Dv>): string {
    if newFiles != [] then newFiles[0].table else if entries != [] then entries[0].table else ""
  }

  /** Files and deletion vectors enter at one common snapshot. */
  function DataUpdate(d: Data, newFiles: seq<File>, newDvs: seq<Dv>): Data {
    Data(AddFiles(d.files, newFiles, d.snapshot + 1), AddDvs(d.dvs, newDvs, d.snapshot + 1), d.snapshot + 1)
  }

  function ApplyUpdate(s: State, entries: seq<Dv>, newFiles: seq<File>, updId: string, nowSecs: nat)
    : (State, Result<nat>)
  {
    var table := UpdateTable(newFiles, entries);
    var files, dvs := FreshFiles(s.data.files, newFiles), FreshDvs(s.data.dvs, entries);
    var refusal := FirstUpdateRefusal(s.data.files, dvs);
    if newFiles == [] && entries == [] then (s, Ok(s.data.snapshot))
    else if !OneTable(newFiles, entries, table) then (s, Err(CrossTable))
    else if files == [] && dvs == [] then (s, Ok(s.data.snapshot))
    else if refusal.Some? then (s, Err(refusal.value))
    else
      (s.(data := DataUpdate(s.data, files, dvs),
          idem := if updId == "" then s.idem else s.idem[updId := Idem(updId, "", nowSecs)],
          ver := Applied(Structural(BumpManifest(s.ver, table)))),
       Ok(s.data.snapshot + 1))
  }

  function DvsOfPath(dvs: map<(string, string), Dv>, path: string): set<(string, string)> {
    set k | k in dvs && dvs[k].path == path && dvs[k].revokedAt == 0
  }

  function DataRevoke(d: Data, path: string, at: nat): Data {
    d.(dvs := RevokeKeys(d.dvs, DvsOfPath(d.dvs, path), at))
  }

  function RevokeForFile(s: State, path: string, at: nat): (State, nat) {
    if DvsOfPath(s.data.dvs, path) == {} then (s, 0)
    else (s.(data := DataRevoke(s.data, path, at), ver := Structural(s.ver)), |DvsOfPath(s.data.dvs, path)|)
  }

  // ---------------------------------------------------------------- dropping

  function LiveFilesOfShard(files: map<string, File>, key: ShardKey): set<string> {
    set b | b in files && files[b].table == key.table && files[b].shard == key.shard && files[b].deletedAt == 0
  }

  function DataDropShard(d: Data, key: ShardKey): Data {
    d.(snapshot := d.snapshot + 1, files := Entomb(d.files, LiveFilesOfShard(d.files, key), d.snapshot + 1))
  }

  function DropShard(s: State, key: ShardKey): (State, nat) {
    (s.(data := DataDropShard(s.data, key), ver := Applied(BumpManifest(s.ver, key.table))),
     |LiveFilesOfShard(s.data.files, key)|)
  }

  function DataDropTable(d: Data, table: string): Data {
    Data(map b | b in d.files && d.files[b].table != table :: d.files[b],
         map k | k in d.dvs && d.dvs[k].table != table :: d.dvs[k],
         d.snapshot + 1)
  }

  function DropTable(s: State, table: string): (State, Result<()>) {
    if table !in s.registry.tables then (s, Err(NotFound))
    else
      (s.(data := DataDropTable(s.data, table),
          registry := s.registry.(
            tables := s.registry.tables - {table},
            schemas := map k | k in s.registry.schemas && k.0 != table :: s.registry.schemas[k]),
          ver := Applied(BumpManifest(Structural(s.ver), table))), Ok(()))
  }

  // ---------------------------------------------------------------- leases

  function AcquireLease(leases: map<string, Lease>, purpose: string, holder: string, nowMs: nat, ttlMs: nat)
    : (map<string, Lease>, Grant)
  {
    var expires := SatAdd(nowMs, ttlMs);
    if purpose in leases && leases[purpose].holder != holder && nowMs < leases[purpose].expiresAt then
      (leases, Grant(false, leases[purpose].epoch, leases[purpose].expiresAt))
    else if purpose in leases && leases[purpose].holder == holder then
      var cur := leases[purpose];
      (leases[purpose := Lease(purpose, holder, cur.epoch, cur.grantedAt, expires)],
       Grant(true, cur.epoch, expires))
    else
      var epoch := (if purpose in leases then leases[purpose].epoch else 0) + 1;
      (leases[purpose := Lease(purpose, holder, epoch, nowMs, expires)], Grant(true, epoch, expires))
  }

  function RenewLease(leases: map<string, Lease>, purpose: string, holder: string, epoch: nat, nowMs: nat, ttlMs: nat)
    : (map<string, Lease>, bool)
  {
    if purpose !in leases || leases[purpose].holder != holder || leases[purpose].epoch != epoch
       || nowMs >= leases[purpose].expiresAt
    then (leases, false)
    else (leases[purpose := leases[purpose].(expiresAt := SatAdd(nowMs, ttlMs))], true)
  }

  function ReleaseLease(leases: map<string, Lease>, purpose: string, holder: string, epoch: nat)
    : (map<string, Lease>, bool)
  {
    if purpose in leases && leases[purpose].holder == holder && leases[purpose].epoch == epoch
    then (leases[purpose := leases[purpose].(holder := "", expiresAt := 0)], true)
    else (leases, false)
  }

  // ---------------------------------------------------------------- compaction

  predicate Fences(leases: map<string, Lease>, epoch: nat, declared: string) {
    var purpose := if declared == "" then COMPACTION_LEASE else declared;
    purpose in leases && epoch < leases[purpose].epoch
  }

  predicate InputGone(files: map<string, File>, olds: seq<string>) {
    exists id :: id in olds && id in files && files[id].deletedAt != 0
  }

  function TouchedTables(files: map<string, File>, olds: seq<string>, news: seq<File>): set<string> {
    (set id | id in olds && id in files :: files[id].table) + (set f | f in news :: f.table)
  }

  function BatchIds(news: seq<File>): set<string> {
    set f | f in news :: f.batchId
  }

  function Ids(olds: seq<string>): set<string> {
    set id | id in olds
  }

  function DataSwap(d: Data, olds: seq<string>, news: seq<File>): Data {
    d.(snapshot := d.snapshot + 1,
       files := AddFiles(Entomb(d.files, Ids(olds), d.snapshot + 1), news, d.snapshot + 1))
  }

  ghost function CommitCompaction(s: State, olds: seq<string>, news: seq<File>, epoch: nat, declared: string)
    : (State, Result<nat>)
  {
    if Fences(s.leases, epoch, declared) then (s, Err(Fenced))
    else if InputGone(s.data.files, olds) then (s, Err(Conflict))
    else
      (s.(data := DataSwap(s.data, olds, news), inFlight := s.inFlight - BatchIds(news),
          ver := Applied(BumpAll(s.ver, Strings.Listing(TouchedTables(s.data.files, olds, news))))),
       Ok(s.data.snapshot + 1))
  }

  // ---------------------------------------------------------------- in-flight batches and idempotency keys

  function RecordInFlight(inFlight: map<string, nat>, batchId: string, nowMs: nat): map<string, nat> {
    if batchId in inFlight then inFlight else inFlight[batchId := nowMs]
  }

  function SweepInFlight(inFlight: map<string, nat>, ttlMs: nat, nowMs: nat): map<string, nat> {
    map b | b in inFlight && SatSub(nowMs, inFlight[b]) < ttlMs :: inFlight[b]
  }

  function RecordIdem(idem: map<string, Idem>, rec: Idem): map<string, Idem> {
    if rec.key in idem then idem else idem[rec.key := rec]
  }

  function SweepIdem(idem: map<string, Idem>, ttlSecs: nat, nowSecs: nat): map<string, Idem> {
    map k | k in idem && SatSub(nowSecs, idem[k].committedAt) < ttlSecs :: idem[k]
  }

  /** The batches whose objects must not be collected. */
  function KnownBatchIds(s: State): set<string> {
    (set b | b in s.data.files && s.data.files[b].ProtectedAt(s.data.snapshot)) + s.inFlight.Keys
  }

  // ---------------------------------------------------------------- tables, schemas, datanodes

  predicate ValidName(name: string) {
    0 < |name| <= 128 &&
    forall c | c in name :: 'a' <= c <= 'z' || 'A' <= c <= 'Z' || '0' <= c <= '9' || c == '_' || c == '-'
  }

  function Qualified(namespace: string, name: string): string {
    namespace + "." + name
  }

  datatype RegistryOp =
    | CreateTable(name: string, namespace: string, arrowSchema: string, now: nat)
      // `evolved` is what applying the requested change to the current schema gives, if it can be applied
    | EvolveSchema(table: string, evolved: Option<string>, expected: nat, now: nat)
    | CreateSchema(namespace: string)
    | DropSchema(namespace: string)
    | RegisterDatanode(node: Datanode)
    | RemoveDatanode(id: string)

  function RegistryStep(r: Registry, op: RegistryOp): Result<Registry> {
    match op
    case CreateTable(name, namespace, arrowSchema, now) =>
      var ns := if namespace == "" then DEFAULT_SCHEMA else namespace;
      var q := Qualified(ns, name);
      if !ValidName(name) || !ValidName(ns) then Err(InvalidName)
      else if ns !in r.namespaces then Err(NotFound)
      else if q in r.tables then Err(AlreadyExists)
      else Ok(r.(tables := r.tables[q := Table(name, ns, 1, arrowSchema, now)],
                 schemas := r.schemas[(q, 1) := SchemaVersion(1, arrowSchema, now)]))
    case EvolveSchema(table, evolved, expected, now) =>
      if table !in r.tables then Err(NotFound)
      else if r.tables[table].version != expected then Err(SchemaChanged)
      else if evolved.None? then Err(InvalidState)
      else Ok(r.(tables := r.tables[table := r.tables[table].(version := expected + 1, arrowSchema := evolved.value)],
                 schemas := r.schemas[(table, expected + 1) := SchemaVersion(expected + 1, evolved.value, now)]))
    case CreateSchema(namespace) =>
      if !ValidName(namespace) then Err(InvalidName)
      else if namespace in r.namespaces then Err(AlreadyExists)
      else Ok(r.(namespaces := r.namespaces + {namespace}))
    case DropSchema(namespace) =>
      if namespace == DEFAULT_SCHEMA then Err(InvalidState)
      else if namespace !in r.namespaces then Err(NotFound)
      else if exists t :: t in r.tables && r.tables[t].namespace == namespace then Err(NotEmpty)
      else Ok(r.(namespaces := r.namespaces - {namespace}))
    case RegisterDatanode(m) =>
      if m.instanceId in r.datanodes && r.datanodes[m.instanceId].address == m.address then Err(AlreadyExists)
      else Ok(r.(datanodes := r.datanodes[m.instanceId := m]))
    case RemoveDatanode(id) =>
      if id !in r.datanodes then Err(NotFound) else Ok(r.(datanodes := r.datanodes - {id}))
  }

  /** A successful change of the registry is a structural change; node membership is not counted as applied. */
  function Administer(s: State, op: RegistryOp): State {
    match RegistryStep(s.registry, op)
    case Err(_) => s
    case Ok(r) =>
      var v := Structural(s.ver);
      s.(registry := r, ver := if op.RegisterDatanode? || op.RemoveDatanode? then v else Applied(v))
  }

  // ---------------------------------------------------------------- queries

  function VisibleFiles(d: Data, table: string, snapshot: nat): map<string, File> {
    map b | b in d.files && d.files[b].table == table && d.files[b].VisibleAt(snapshot) :: d.files[b]
  }

  function ActiveDvs(d: Data, table: string, snapshot: nat): map<(string, string), Dv> {
    map k | k in d.dvs && d.dvs[k].table == table && d.dvs[k].ActiveAt(snapshot) :: d.dvs[k]
  }

  function FilesSince(d: Data, since: nat): map<string, File> {
    map b | b in d.files && (d.files[b].validFrom > since
        || (d.files[b].deletedAt != 0 && d.files[b].deletedAt > since))
         :: d.files[b]
  }

  function ManifestDelta(v: Counters, since: nat): set<string> {
    if since >= v.manifestVer then {} else set t | t in v.tableVer && v.tableVer[t] > since
  }

  // ---------------------------------------------------------------- runs

  datatype Op =
    | OpCommitFiles(req: CommitRequest, now: nat)
    | OpApplyDeletions(entries: seq<Dv>, now: nat)
    | OpApplyUpdate(entries: seq<Dv>, newFiles: seq<File>, updId: string, now: nat)
    | OpPurge(table: string, purgeId: string, now: nat)
    | OpRevoke(path: string, at: nat, now: nat)
    | OpDropShard(key: ShardKey, now: nat)
    | OpDropTable(table: string)
    | OpCommitCompaction(olds: seq<string>, news: seq<File>, epoch: nat, purpose: string)
    | OpAcquireLease(purpose: string, holder: string, now: nat, ttl: nat)
    | OpRenewLease(purpose: string, holder: string, epoch: nat, now: nat, ttl: nat)
    | OpReleaseLease(purpose: string, holder: string, epoch: nat)
    | OpRecordInFlight(batchId: string, now: nat)
    | OpClearInFlight(batchId: string)
    | OpSweepInFlight(ttl: nat, now: nat)
    | OpRecordIdem(rec: Idem)
    | OpSweepIdem(ttl: nat, now: nat)
    | OpAdminister(change: RegistryOp)

  ghost function Step(s: State, op: Op): State {
    match op
    case OpCommitFiles(req, now) => CommitFiles(s, req, now).0
    case OpApplyDeletions(entries, _) => ApplyDeletions(s, entries).0
    case OpApplyUpdate(entries, newFiles, updId, now) => ApplyUpdate(s, entries, newFiles, updId, now).0
    case OpPurge(table, purgeId, _) => PurgeTable(s, table, purgeId).0
    case OpRevoke(path, at, _) => RevokeForFile(s, path, at).0
    case OpDropShard(key, _) => DropShard(s, key).0
    case OpDropTable(table) => DropTable(s, table).0
    case OpCommitCompaction(olds, news, epoch, purpose) => CommitCompaction(s, olds, news, epoch, purpose).0
    case OpAcquireLease(p, h, now, ttl) => s.(leases := AcquireLease(s.leases, p, h, now, ttl).0)
    case OpRenewLease(p, h, e, now, ttl) => s.(leases := RenewLease(s.leases, p, h, e, now, ttl).0)
    case OpReleaseLease(p, h, e) => s.(leases := ReleaseLease(s.leases, p, h, e).0)
    case OpRecordInFlight(b, now) => s.(inFlight := RecordInFlight(s.inFlight, b, now))
    case OpClearInFlight(b) => s.(inFlight := s.inFlight - {b})
    case OpSweepInFlight(ttl, now) => s.(inFlight := SweepInFlight(s.inFlight, ttl, now))
    case OpRecordIdem(rec) => s.(idem := RecordIdem(s.idem, rec))
    case OpSweepIdem(ttl, now) => s.(idem := SweepIdem(s.idem, ttl, now))
    case OpAdminister(change) => Administer(s, change)
  }

  ghost function Run(s: State, ops: seq<Op>): State
    decreases |ops|
  {
    if ops == [] then s else Run(Step(s, ops[0]), ops[1..])
  }

  lemma {:induction false} RunConcat(s: State, a: seq<Op>, b: seq<Op>)
    ensures Run(s, a + b) == Run(Run(s, a), b)
    decreases |a|
  {
    if a == [] {
      assert a + b == b;
    } else {
      assert (a + b)[1..] == a[1..] + b;
      RunConcat(Step(s, a[0]), a[1..], b);
    }
  }
}

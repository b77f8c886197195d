/** What each operation of the chunk store does, as a function on its state. */
module ChunkOps {
  import opened Common
  import opened CatalogModel
  import opened ChunkModel

  /** A table that was never seen is alive in epoch 0; every creation starts a new epoch. */
  datatype Liveness = Liveness(alive: bool, epoch: nat)

  datatype Store = Store(
    chunks: map<nat, Chunk>, open: map<ChunkKey, nat>, pendingSeal: map<nat, (SealReason, Option<Pressure>)>,
    liveness: map<string, Liveness>, used: int, version: nat, nextId: nat, watermark: nat, yielded: nat)

  /** `phase` is the fixed delay that spreads the flushes of one key over the instances. */
  datatype Config = Config(
    limit: nat, rowsThreshold: nat, bytesThreshold: nat, minResident: nat, maxFlushDelay: nat, maxResident: nat,
    phase: ChunkKey -> nat)

  function EmptyStore(): Store {
    Store(map[], map[], map[], map[], 0, 0, 0, 0, 0)
  }

  function PressureOf(cfg: Config, s: Store): Pressure {
    Classify(s.used, cfg.limit)
  }

  function LivenessOf(s: Store, table: string): Liveness {
    if table in s.liveness then s.liveness[table] else Liveness(true, 0)
  }

  predicate Current(s: Store, key: ChunkKey) {
    LivenessOf(s, key.table) == Liveness(true, key.epoch)
  }

  // ---------------------------------------------------------------- sealing

  function ShouldSeal(cfg: Config, c: Chunk, now: nat): Option<SealReason> {
    if c.rows >= cfg.rowsThreshold then Some(RowsReached)
    else if c.bytes >= cfg.bytesThreshold then Some(BytesReached)
    else if now >= c.windowEnd && SatSub(now, c.createdAt) >= cfg.minResident then Some(WindowClosed)
    else None
  }

  /** The chunk is closed for appending and its key has no open chunk any more. */
  function CloseChunk(s: Store, id: nat, reason: SealReason, pressure: Option<Pressure>, now: nat): Store
    requires id in s.chunks
  {
    var c := s.chunks[id];
    s.(chunks := s.chunks[id := c.(state := Sealed, seal := Some(Seal(now, reason, pressure)))],
        open := s.open - {c.key})
  }

  /** Sealing by request; a chunk that is not open is left as it is. */
  function SealById(s: Store, id: nat, now: nat): Store {
    if id !in s.chunks then s
    else
      var why := if id in s.pendingSeal then s.pendingSeal[id] else (ByHand, None);
      var t := s.(pendingSeal := s.pendingSeal - {id}, version := s.version + 1);
      if s.chunks[id].state.Open? then CloseChunk(t, id, why.0, why.1, now)
      else if s.chunks[id].key in s.open && s.open[s.chunks[id].key] == id then t.(open := t.open - {s.chunks[id].key})
      else t
  }

  // ---------------------------------------------------------------- appending

  datatype Outcome = Outcome(id: nat, closed: Option<(nat, SealReason)>, pressure: Pressure)

  predicate Outdated(s: Store, key: ChunkKey, schemaVersion: nat) {
    key in s.open && s.open[key] in s.chunks && s.chunks[s.open[key]].schemaVersion != schemaVersion
  }

  /** A new schema version closes the open chunk: a file has one schema. */
  function CloseOutdated(s: Store, key: ChunkKey, schemaVersion: nat, pressure: Pressure, now: nat): Store {
    if Outdated(s, key, schemaVersion) then CloseChunk(s, s.open[key], SchemaEvolved, Some(pressure), now) else s
  }

  function EnsureOpen(s: Store, key: ChunkKey, schemaVersion: nat, schema: string, now: nat): Store {
    if key in s.open then s
    else
      var id := s.nextId + 1;
      s.(nextId := id, open := s.open[key := id],
          chunks := s.chunks[id := NewChunk(id, key, schemaVersion, schema, now)])
  }

  /** The oldest chunk that could be moved to disk. */
  function OldestSpillable(s: Store, from: nat): Option<nat>
    decreases s.nextId + 1 - from
  {
    if from > s.nextId then None
    else if from in s.chunks && s.chunks[from].NeedsSpill() then Some(from)
    else OldestSpillable(s, from + 1)
  }

  /** Moves the chunk to disk and gives its bytes back; an empty chunk cannot be written. */
  function SpillById(s: Store, id: nat): (Store, bool) {
    if id !in s.chunks || !s.chunks[id].NeedsSpill() then (s, true)
    else if s.chunks[id].data.batches == [] then (s, false)
    else
      var c := s.chunks[id];
      (s.(chunks := s.chunks[id := c.(state := Spilled, data := OnDisk(c.data.batches))],
          used := s.used - c.bytes, version := s.version + 1), true)
  }

  function RelieveOnce(s: Store): Store {
    match OldestSpillable(s, 0)
    case None => s
    case Some(id) => SpillById(s, id).0
  }

  /** Over the limit, one chunk is moved to disk first; the bytes are recorded in any case. */
  function Reserve(cfg: Config, s: Store, added: nat): Store {
    var t := if s.used + added > cfg.limit then RelieveOnce(s) else s;
    t.(used := t.used + added)
  }

  /** The store in which an append that is not refused at once puts its batches. */
  function Ready(cfg: Config, s: Store, key: ChunkKey, schemaVersion: nat, schema: string, now: nat): Store {
    EnsureOpen(CloseOutdated(s, key, schemaVersion, PressureOf(cfg, s), now), key, schemaVersion, schema, now)
  }

  function Fill(t: Store, id: nat, seqNo: nat, batches: seq<Batch>): Store
    requires id in t.chunks
  {
    t.(chunks := t.chunks[id := AppendAll(t.chunks[id], seqNo, batches).0])
  }

  function CloseIfDue(cfg: Config, u: Store, id: nat, pressure: Pressure, now: nat): Store
    requires id in u.chunks
  {
    match ShouldSeal(cfg, u.chunks[id], now)
    case None => u
    case Some(reason) => CloseChunk(u, id, reason, Some(pressure), now)
  }

  function Deliver(cfg: Config, t: Store, id: nat, seqNo: nat, batches: seq<Batch>, pressure: Pressure,
                   now: nat): (Store, bool)
    requires id in t.chunks
  {
    var u := Fill(t, id, seqNo, batches);
    if AppendAll(t.chunks[id], seqNo, batches).1
    then (Reserve(cfg, CloseIfDue(cfg, u, id, pressure, now), BytesOf(batches)), true) else (u, false)
  }

  function DueClose(cfg: Config, t: Store, id: nat, seqNo: nat, batches: seq<Batch>, now: nat)
    : Option<(nat, SealReason)>
    requires id in t.chunks
  {
    var reason := ShouldSeal(cfg, Fill(t, id, seqNo, batches).chunks[id], now);
    if reason.Some? then Some((id, reason.value)) else None
  }

  function Append(cfg: Config, s: Store, key: ChunkKey, schemaVersion: nat, schema: string, seqNo: nat,
                  batches: seq<Batch>, now: nat): (Store, Result<Outcome>)
  {
    var pressure := PressureOf(cfg, s);
    if batches == [] then (s, Err(InvalidState))
    else if pressure.Reject? then (s, Err(ResourceExhausted))
    else
      var t := Ready(cfg, s, key, schemaVersion, schema, now);
      if t.open[key] !in t.chunks then (t, Err(InvalidState))
      else
        var id := t.open[key];
        var (w, ok) := Deliver(cfg, t, id, seqNo, batches, pressure, now);
        if !ok then (w, Err(SchemaMismatch))
        else
          var due := DueClose(cfg, t, id, seqNo, batches, now);
          var closed := if due.Some? then due
                        else if Outdated(s, key, schemaVersion) then Some((s.open[key], SchemaEvolved)) else None;
          (w.(version := w.version + 1), Ok(Outcome(id, closed, PressureOf(cfg, w))))
  }

  // ---------------------------------------------------------------- pressure

  function CloseAllOpen(s: Store, pressure: Pressure, now: nat): Store {
    s.(chunks := map id | id in s.chunks ::
         if s.chunks[id].state.Open?
         then s.chunks[id].(state := Sealed, seal := Some(Seal(now, UnderPressure, Some(pressure)))) else s.chunks[id],
       open := map[], pendingSeal := s.pendingSeal - s.open.Values, version := s.version + |s.open.Values|)
  }

  /** Moves chunks to disk, oldest first, at most `n`, until the pressure is normal or one cannot be moved. */
  function SpillUntilNormal(cfg: Config, s: Store, n: nat): Store
    decreases n
  {
    if n == 0 || !PressureOf(cfg, s).NeedsSpill() then s
    else match OldestSpillable(s, 0)
      case None => s
      case Some(id) =>
        var (t, ok) := SpillById(s, id);
        if ok then SpillUntilNormal(cfg, t, n - 1) else s
  }

  function EnforcePressure(cfg: Config, s: Store, now: nat): Store {
    var p := PressureOf(cfg, s);
    if !p.NeedsSpill() then s
    else SpillUntilNormal(cfg, if p.NeedsForceSeal() then CloseAllOpen(s, p, now) else s, 64)
  }

  // ---------------------------------------------------------------- flushing

  predicate Flushable(c: Chunk) {
    c.state.Sealed? || c.state.Spilled?
  }

  predicate OpenTooLong(cfg: Config, c: Chunk, now: nat) {
    SatSub(now, c.createdAt) >= cfg.maxResident
  }

  predicate SealedTooLong(cfg: Config, c: Chunk, now: nat) {
    c.seal.Some? && SatSub(now, c.seal.value.at) >= cfg.maxResident
  }

  predicate SealDue(cfg: Config, c: Chunk, now: nat) {
    c.state.Open? && (OpenTooLong(cfg, c, now) || ShouldSeal(cfg, c, now).Some?)
  }

  predicate PhaseDue(cfg: Config, c: Chunk, now: nat) {
    c.seal.Some? && now >= c.seal.value.at + cfg.maxFlushDelay + cfg.phase(c.key)
  }

  /** Flushed now only because memory is short. */
  predicate Yields(cfg: Config, pressure: Pressure, c: Chunk, now: nat) {
    !pressure.Normal? && Flushable(c) && !PhaseDue(cfg, c, now)
  }

  predicate FlushDue(cfg: Config, pressure: Pressure, c: Chunk, now: nat) {
    && !c.state.Flushed? && !c.state.Released? && (Flushable(c) || SealDue(cfg, c, now)) && !c.InBackoff(now)
    && (OpenTooLong(cfg, c, now) || SealedTooLong(cfg, c, now) || PhaseDue(cfg, c, now)
        || Yields(cfg, pressure, c, now))
  }

  function SealReasonOf(cfg: Config, c: Chunk, now: nat): SealReason {
    var r := ShouldSeal(cfg, c, now);
    if r.Some? then r.value else ResidentCap
  }

  function NoteBatchId(s: Store, id: nat, batch: string): Store {
    if id !in s.chunks then s
    else s.(chunks := s.chunks[id := s.chunks[id].(flush := s.chunks[id].flush.(batchId := Some(batch)))])
  }

  function MarkCommittedById(s: Store, id: nat, snapshot: nat): (Store, bool) {
    if id !in s.chunks then (s, true)
    else match MarkCommitted(s.chunks[id], snapshot)
      case Err(_) => (s, false)
      case Ok(c) => (s.(chunks := s.chunks[id := c], version := s.version + 1), true)
  }

  function NoteFailureById(s: Store, id: nat, now: nat): Store {
    if id !in s.chunks then s else s.(chunks := s.chunks[id := NoteFailure(s.chunks[id], now)])
  }

  // ---------------------------------------------------------------- giving up local copies

  function ResidentBytes(c: Chunk): nat {
    if c.data.InMemory? then c.bytes else 0
  }

  function Discard(s: Store, id: nat): (Store, bool) {
    if id !in s.chunks then (s, false)
    else
      var c := s.chunks[id];
      (s.(chunks := s.chunks - {id},
          open := if c.key in s.open && s.open[c.key] == id then s.open - {c.key} else s.open,
          used := s.used - ResidentBytes(c), version := s.version + 1), true)
  }

  predicate CaughtUp(c: Chunk, cached: nat) {
    c.state.Flushed? && c.flush.committed.Some? && cached >= c.flush.committed.value
  }

  predicate Reclaimable(s: Store, c: Chunk, cached: nat) {
    !Current(s, c.key) || CaughtUp(c, cached)
  }

  /** Giving up one chunk. Only data that is in a file moves the watermark. */
  function GiveUp(s: Store, id: nat): Store
    requires id in s.chunks
  {
    var c := s.chunks[id];
    s.(chunks := s.chunks - {id}, open := if c.key in s.open && s.open[c.key] == id then s.open - {c.key} else s.open,
       used := s.used - ResidentBytes(c),
       watermark := if Current(s, c.key) && c.flush.committed.Some? then Max(s.watermark, c.flush.committed.value)
                    else s.watermark)
  }

  function ReclaimFrom(s: Store, cached: nat, id: nat): Store
    decreases s.nextId + 1 - id
  {
    if id > s.nextId then s
    else if id in s.chunks && Reclaimable(s, s.chunks[id], cached) then ReclaimFrom(GiveUp(s, id), cached, id + 1)
    else ReclaimFrom(s, cached, id + 1)
  }

  function Reclaim(s: Store, cached: nat): Store {
    var t := ReclaimFrom(s, cached, 0);
    if t.chunks == s.chunks then t else t.(version := t.version + 1)
  }

  function Observe(s: Store, create: bool, table: string): Store {
    var l := LivenessOf(s, table);
    s.(liveness := s.liveness[table := if create then Liveness(true, l.epoch + 1) else l.(alive := false)],
       version := s.version + 1)
  }

  // ---------------------------------------------------------------- reading

  predicate Listed(s: Store, c: Chunk, table: string, cached: nat, exclude: set<string>) {
    && c.key.table == table && Current(s, c.key)
    && !(c.flush.batchId.Some? && c.flush.batchId.value in exclude)
    && c.VisibleTo(cached)
  }

  /** The chunks a reader of `table` gets who already sees the batches of `exclude` in files. */
  function VisibleChunks(s: Store, table: string, cached: nat, exclude: set<string>): set<nat> {
    set id | id in s.chunks && Listed(s, s.chunks[id], table, cached, exclude)
  }
}

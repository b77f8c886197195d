/** The registry and ledger of the chunk store after every operation: each key has at most one open chunk,
    chunks are uniform and know exactly what they cover, and the ledger counts the bytes in memory. */
module ChunkRegistry {
  import opened CatalogModel
  import opened ChunkModel
  import opened ChunkOps
  import opened Sums

  function Resident(chunks: map<nat, Chunk>): map<nat, nat> {
    map id | id in chunks :: ResidentBytes(chunks[id])
  }

  ghost function Held(chunks: map<nat, Chunk>): nat {
    Sum(Resident(chunks))
  }

  ghost predicate ChunksOk(chunks: map<nat, Chunk>, nextId: nat) {
    forall id | id in chunks :: 0 < id <= nextId && chunks[id].id == id && ValidChunk(chunks[id])
  }

  /** `open` names exactly the open chunks, by their keys. */
  ghost predicate OpenOk(chunks: map<nat, Chunk>, open: map<ChunkKey, nat>) {
    && (forall k | k in open :: open[k] in chunks && chunks[open[k]].state.Open? && chunks[open[k]].key == k)
    && (forall id | id in chunks && chunks[id].state.Open? :: chunks[id].key in open && open[chunks[id].key] == id)
  }

  ghost predicate Registered(s: Store) {
    ChunksOk(s.chunks, s.nextId) && OpenOk(s.chunks, s.open)
  }

  ghost predicate Balanced(s: Store) {
    s.used == Held(s.chunks)
  }

  ghost predicate ValidStore(s: Store) {
    Registered(s) && Balanced(s)
  }

  /** How far the ledger is off. */
  ghost function Drift(s: Store): int {
    s.used - Held(s.chunks)
  }

  /** The registry holds and the ledger is exactly as right or wrong as before. */
  ghost predicate Kept(s: Store, t: Store) {
    Registered(t) && Drift(t) == Drift(s)
  }

  // ---- sums

  lemma HeldReplace(chunks: map<nat, Chunk>, id: nat, c: Chunk)
    requires id in chunks
    ensures Held(chunks[id := c]) == Held(chunks) - ResidentBytes(chunks[id]) + ResidentBytes(c)
  {
    var m, n := Resident(chunks), Resident(chunks[id := c]);
    SumTake(m, id);
    SumTake(n, id);
    assert m - {id} == n - {id};
  }

  lemma HeldInsert(chunks: map<nat, Chunk>, id: nat, c: Chunk)
    requires id !in chunks
    ensures Held(chunks[id := c]) == Held(chunks) + ResidentBytes(c)
  {
    var m, n := Resident(chunks), Resident(chunks[id := c]);
    SumTake(n, id);
    assert n - {id} == m;
  }

  lemma HeldRemove(chunks: map<nat, Chunk>, id: nat)
    requires id in chunks
    ensures Held(chunks - {id}) == Held(chunks) - ResidentBytes(chunks[id])
  {
    var m := Resident(chunks);
    SumTake(m, id);
    assert m - {id} == Resident(chunks - {id});
  }

  lemma HeldSame(a: map<nat, Chunk>, b: map<nat, Chunk>)
    requires a.Keys == b.Keys && forall id | id in a :: ResidentBytes(a[id]) == ResidentBytes(b[id])
    ensures Held(a) == Held(b)
  {
    assert Resident(a) == Resident(b);
  }

  lemma EmptyValid()
    ensures ValidStore(EmptyStore())
  {
  }

  // ---- sealing

  lemma ClosedChunkValid(c: Chunk, reason: SealReason, pressure: Option<Pressure>, now: nat)
    requires ValidChunk(c) && c.state.Open?
    ensures ValidChunk(c.(state := Sealed, seal := Some(Seal(now, reason, pressure))))
  {
  }

  lemma CloseValid(s: Store, id: nat, reason: SealReason, pressure: Option<Pressure>, now: nat)
    requires Registered(s) && id in s.chunks && s.chunks[id].state.Open?
    ensures Registered(CloseChunk(s, id, reason, pressure, now))
    ensures Held(CloseChunk(s, id, reason, pressure, now).chunks) == Held(s.chunks)
  {
    ClosedChunkValid(s.chunks[id], reason, pressure, now);
    HeldReplace(s.chunks, id, s.chunks[id].(state := Sealed, seal := Some(Seal(now, reason, pressure))));
  }

  lemma SealValid(s: Store, id: nat, now: nat)
    requires Registered(s)
    ensures Kept(s, SealById(s, id, now))
  {
    if id in s.chunks && s.chunks[id].state.Open? {
      var why := if id in s.pendingSeal then s.pendingSeal[id] else (ByHand, None);
      CloseValid(s.(pendingSeal := s.pendingSeal - {id}, version := s.version + 1), id, why.0, why.1, now);
    }
  }

  // ---- spilling

  lemma SpilledChunkValid(c: Chunk)
    requires ValidChunk(c) && c.NeedsSpill()
    ensures ValidChunk(c.(state := Spilled, data := OnDisk(c.data.batches)))
  {
  }

  lemma SpillValid(s: Store, id: nat)
    requires Registered(s)
    ensures Kept(s, SpillById(s, id).0)
  {
    if id in s.chunks && s.chunks[id].NeedsSpill() && s.chunks[id].data.batches != [] {
      var c := s.chunks[id].(state := Spilled, data := OnDisk(s.chunks[id].data.batches));
      SpilledChunkValid(s.chunks[id]);
      RevisedOpen(s.chunks, s.open, id, c);
      HeldReplace(s.chunks, id, c);
    }
  }

  lemma {:induction false} SpillUntilValid(cfg: Config, s: Store, n: nat)
    requires Registered(s)
    ensures Kept(s, SpillUntilNormal(cfg, s, n))
    decreases n
  {
    if n > 0 && PressureOf(cfg, s).NeedsSpill() && OldestSpillable(s, 0).Some? {
      var id := OldestSpillable(s, 0).value;
      SpillValid(s, id);
      if SpillById(s, id).1 { SpillUntilValid(cfg, SpillById(s, id).0, n - 1); }
    }
  }

  lemma ClosedOne(s: Store, pressure: Pressure, now: nat, id: nat)
    requires id in s.chunks && ValidChunk(s.chunks[id])
    ensures var c := CloseAllOpen(s, pressure, now).chunks[id];
            ValidChunk(c) && ResidentBytes(c) == ResidentBytes(s.chunks[id]) && c.id == s.chunks[id].id
  {
    if s.chunks[id].state.Open? { ClosedChunkValid(s.chunks[id], UnderPressure, Some(pressure), now); }
  }

  lemma CloseAllChunks(s: Store, pressure: Pressure, now: nat)
    requires ChunksOk(s.chunks, s.nextId)
    ensures ChunksOk(CloseAllOpen(s, pressure, now).chunks, s.nextId)
    ensures Held(CloseAllOpen(s, pressure, now).chunks) == Held(s.chunks)
  {
    var t := CloseAllOpen(s, pressure, now);
    forall id | id in s.chunks
      ensures ValidChunk(t.chunks[id]) && ResidentBytes(t.chunks[id]) == ResidentBytes(s.chunks[id])
              && t.chunks[id].id == s.chunks[id].id
    {
      ClosedOne(s, pressure, now, id);
    }
    HeldSame(s.chunks, t.chunks);
  }

  lemma CloseAllValid(s: Store, pressure: Pressure, now: nat)
    requires Registered(s)
    ensures Kept(s, CloseAllOpen(s, pressure, now))
  {
    CloseAllChunks(s, pressure, now);
    NoneOpen(s, pressure, now);
  }

  lemma NoneOpen(s: Store, pressure: Pressure, now: nat)
    ensures OpenOk(CloseAllOpen(s, pressure, now).chunks, map[])
  {
  }

  lemma EnforceValid(cfg: Config, s: Store, now: nat)
    requires Registered(s)
    ensures Kept(s, EnforcePressure(cfg, s, now))
  {
    var p := PressureOf(cfg, s);
    CloseAllValid(s, p, now);
    SpillUntilValid(cfg, if p.NeedsForceSeal() then CloseAllOpen(s, p, now) else s, 64);
  }

  // ---- appending

  lemma CloseOutdatedValid(s: Store, key: ChunkKey, schemaVersion: nat, pressure: Pressure, now: nat)
    requires Registered(s)
    ensures var t := CloseOutdated(s, key, schemaVersion, pressure, now);
            && Registered(t) && Held(t.chunks) == Held(s.chunks) && t.used == s.used && t.nextId == s.nextId
            && (key in t.open ==> t.chunks[t.open[key]].schemaVersion == schemaVersion)
  {
    if Outdated(s, key, schemaVersion) { CloseValid(s, s.open[key], SchemaEvolved, Some(pressure), now); }
  }

  lemma InsertedChunks(s: Store, c: Chunk)
    requires ChunksOk(s.chunks, s.nextId) && c.id == s.nextId + 1 && ValidChunk(c)
    ensures ChunksOk(s.chunks[c.id := c], c.id) && c.id !in s.chunks
  {
  }

  lemma InsertedOpen(s: Store, c: Chunk)
    requires OpenOk(s.chunks, s.open) && c.id !in s.chunks && c.state.Open? && c.key !in s.open
    ensures OpenOk(s.chunks[c.id := c], s.open[c.key := c.id])
  {
  }

  lemma EnsureOpenValid(s: Store, key: ChunkKey, schemaVersion: nat, schema: string, now: nat)
    requires Registered(s) && (key in s.open ==> s.chunks[s.open[key]].schemaVersion == schemaVersion)
    ensures var t := EnsureOpen(s, key, schemaVersion, schema, now);
            && Registered(t) && Held(t.chunks) == Held(s.chunks) && t.used == s.used
            && key in t.open && t.chunks[t.open[key]].schemaVersion == schemaVersion
  {
    if key !in s.open { OpenedValid(s, NewChunk(s.nextId + 1, key, schemaVersion, schema, now)); }
  }

  lemma OpenedValid(s: Store, c: Chunk)
    requires Registered(s) && c == NewChunk(s.nextId + 1, c.key, c.schemaVersion, c.schema, c.createdAt)
             && c.key !in s.open
    ensures ChunksOk(s.chunks[c.id := c], c.id) && OpenOk(s.chunks[c.id := c], s.open[c.key := c.id])
    ensures Held(s.chunks[c.id := c]) == Held(s.chunks)
  {
    NewChunkValid(s.nextId + 1, c.key, c.schemaVersion, c.schema, c.createdAt);
    InsertedChunks(s, c);
    InsertedOpen(s, c);
    HeldInsert(s.chunks, c.id, c);
  }

  lemma ReadyValid(cfg: Config, s: Store, key: ChunkKey, schemaVersion: nat, schema: string, now: nat)
    requires Registered(s)
    ensures var t := Ready(cfg, s, key, schemaVersion, schema, now);
            && Registered(t) && Held(t.chunks) == Held(s.chunks) && t.used == s.used
            && key in t.open && t.chunks[t.open[key]].schemaVersion == schemaVersion
  {
    CloseOutdatedValid(s, key, schemaVersion, PressureOf(cfg, s), now);
    EnsureOpenValid(CloseOutdated(s, key, schemaVersion, PressureOf(cfg, s), now), key, schemaVersion, schema, now);
  }

  lemma ReplacedOpen(s: Store, id: nat, c: Chunk)
    requires Registered(s) && id in s.chunks && s.chunks[id].state.Open?
    requires ValidChunk(c) && c.id == id && c.state.Open? && c.key == s.chunks[id].key
    ensures Registered(s.(chunks := s.chunks[id := c]))
  {
    RevisedOpen(s.chunks, s.open, id, c);
  }

  lemma FillValid(t: Store, id: nat, seqNo: nat, batches: seq<Batch>)
    requires Registered(t) && id in t.chunks && t.chunks[id].state.Open?
    ensures var u := Fill(t, id, seqNo, batches);
            && Registered(u) && u.chunks[id].state.Open? && u.used == t.used
            && Held(u.chunks) == Held(t.chunks) + BytesOf(batches[..Accepted(t.chunks[id], batches)])
  {
    var c := AppendAll(t.chunks[id], seqNo, batches).0;
    AppendAllIff(t.chunks[id], seqNo, batches);
    AppendAllContent(t.chunks[id], seqNo, batches);
    ReplacedOpen(t, id, c);
    HeldReplace(t.chunks, id, c);
  }

  lemma ReserveValid(cfg: Config, s: Store, added: nat)
    requires Registered(s)
    ensures Registered(Reserve(cfg, s, added))
    ensures Reserve(cfg, s, added).used - Held(Reserve(cfg, s, added).chunks) == s.used + added - Held(s.chunks)
  {
    if s.used + added > cfg.limit && OldestSpillable(s, 0).Some? { SpillValid(s, OldestSpillable(s, 0).value); }
  }

  lemma CloseIfDueValid(cfg: Config, u: Store, id: nat, pressure: Pressure, now: nat)
    requires Registered(u) && id in u.chunks && u.chunks[id].state.Open?
    ensures var v := CloseIfDue(cfg, u, id, pressure, now);
            Registered(v) && Held(v.chunks) == Held(u.chunks) && v.used == u.used
  {
    var reason := ShouldSeal(cfg, u.chunks[id], now);
    if reason.Some? { CloseValid(u, id, reason.value, Some(pressure), now); }
  }

  lemma TakenValid(cfg: Config, t: Store, id: nat, seqNo: nat, batches: seq<Batch>, pressure: Pressure, now: nat)
    requires Registered(t) && id in t.chunks && t.chunks[id].state.Open? && AppendAll(t.chunks[id], seqNo, batches).1
    ensures Kept(t, Reserve(cfg, CloseIfDue(cfg, Fill(t, id, seqNo, batches), id, pressure, now), BytesOf(batches)))
  {
    var u := Fill(t, id, seqNo, batches);
    FillValid(t, id, seqNo, batches);
    AppendAllContent(t.chunks[id], seqNo, batches);
    assert batches[..|batches|] == batches;
    CloseIfDueValid(cfg, u, id, pressure, now);
    ReserveValid(cfg, CloseIfDue(cfg, u, id, pressure, now), BytesOf(batches));
  }

  /** The schema of the chunk that an append of this schema version would fill. */
  function SchemaFor(s: Store, key: ChunkKey, schemaVersion: nat, schema: string): string {
    if key in s.open && s.open[key] in s.chunks && s.chunks[s.open[key]].schemaVersion == schemaVersion
    then s.chunks[s.open[key]].schema else schema
  }

  /** The batches before the first that has another schema. */
  function Matching(batches: seq<Batch>, schema: string): (r: seq<Batch>)
    ensures r <= batches
  {
    if batches == [] || batches[0].schema != schema then [] else [batches[0]] + Matching(batches[1..], schema)
  }

  /** The bytes that an append puts into a chunk without counting them: those before the batch it is refused for. */
  function Slip(cfg: Config, s: Store, key: ChunkKey, schemaVersion: nat, schema: string, batches: seq<Batch>): nat {
    var taken := Matching(batches, SchemaFor(s, key, schemaVersion, schema));
    if PressureOf(cfg, s).Reject? || taken == batches then 0 else BytesOf(taken)
  }

  lemma {:induction false} AcceptedMatches(c: Chunk, batches: seq<Batch>)
    requires c.state.Open? && c.data.InMemory?
    ensures batches[..Accepted(c, batches)] == Matching(batches, c.schema)
  {
    if batches != [] && batches[0].schema == c.schema {
      AcceptedMatches(c, batches[1..]);
      assert batches[..1 + Accepted(c, batches[1..])] == [batches[0]] + batches[1..][..Accepted(c, batches[1..])];
    }
  }

  lemma ReadySchema(cfg: Config, s: Store, key: ChunkKey, schemaVersion: nat, schema: string, now: nat)
    requires Registered(s)
    ensures var t := Ready(cfg, s, key, schemaVersion, schema, now);
            && Registered(t) && key in t.open && t.chunks[t.open[key]].state.Open?
                && t.chunks[t.open[key]].data.InMemory?
            && t.chunks[t.open[key]].schema == SchemaFor(s, key, schemaVersion, schema) && Drift(t) == Drift(s)
  {
    ReadyValid(cfg, s, key, schemaVersion, schema, now);
  }

  lemma DeliverValid(cfg: Config, t: Store, id: nat, seqNo: nat, batches: seq<Batch>, pressure: Pressure, now: nat)
    requires Registered(t) && id in t.chunks && t.chunks[id].state.Open? && t.chunks[id].data.InMemory?
    ensures var (u, ok) := Deliver(cfg, t, id, seqNo, batches, pressure, now);
            var taken := Matching(batches, t.chunks[id].schema);
            Registered(u) && Drift(u) == Drift(t) - if taken == batches then 0 else BytesOf(taken)
  {
    AcceptedMatches(t.chunks[id], batches);
    AppendAllContent(t.chunks[id], seqNo, batches);
    if AppendAll(t.chunks[id], seqNo, batches).1 {
      TakenValid(cfg, t, id, seqNo, batches, pressure, now);
    } else {
      FillValid(t, id, seqNo, batches);
    }
  }

  lemma AppendValid(cfg: Config, s: Store, key: ChunkKey, schemaVersion: nat, schema: string, seqNo: nat,
                    batches: seq<Batch>, now: nat)
    requires Registered(s)
    ensures var t := Append(cfg, s, key, schemaVersion, schema, seqNo, batches, now).0;
            Registered(t) && Drift(t) == Drift(s) - Slip(cfg, s, key, schemaVersion, schema, batches)
  {
    if batches != [] && !PressureOf(cfg, s).Reject? {
      var t := Ready(cfg, s, key, schemaVersion, schema, now);
      ReadySchema(cfg, s, key, schemaVersion, schema, now);
      DeliverValid(cfg, t, t.open[key], seqNo, batches, PressureOf(cfg, s), now);
    }
  }

  /** An append keeps the registry. It keeps the ledger exact if and only if it is refused at once for memory, or every
      batch has the schema of the chunk, or there are no bytes before the first that has not. */
  lemma AppendBalancedIff(cfg: Config, s: Store, key: ChunkKey, schemaVersion: nat, schema: string, seqNo: nat,
                          batches: seq<Batch>, now: nat)
    requires ValidStore(s)
    ensures var t := Append(cfg, s, key, schemaVersion, schema, seqNo, batches, now).0;
            var wanted := SchemaFor(s, key, schemaVersion, schema);
            && Registered(t)
            && (Balanced(t) <==> PressureOf(cfg, s).Reject? || (forall b | b in batches :: b.schema == wanted)
                                 || BytesOf(Matching(batches, wanted)) == 0)
  {
    AppendValid(cfg, s, key, schemaVersion, schema, seqNo, batches, now);
    MatchingAll(batches, SchemaFor(s, key, schemaVersion, schema));
  }

  lemma {:induction false} MatchingAll(batches: seq<Batch>, schema: string)
    ensures Matching(batches, schema) == batches <==> forall b | b in batches :: b.schema == schema
  {
    if batches != [] {
      assert batches == [batches[0]] + batches[1..];
      MatchingAll(batches[1..], schema);
    }
  }

  // ---- the rest of a chunk's life

  lemma RevisedOpen(chunks: map<nat, Chunk>, open: map<ChunkKey, nat>, id: nat, c: Chunk)
    requires OpenOk(chunks, open) && id in chunks && c.key == chunks[id].key
             && (c.state.Open? <==> chunks[id].state.Open?)
    ensures OpenOk(chunks[id := c], open)
  {
  }

  lemma RevisedRegistered(s: Store, id: nat, c: Chunk)
    requires Registered(s) && id in s.chunks && ValidChunk(c) && c.id == id && c.key == s.chunks[id].key
    requires c.state.Open? <==> s.chunks[id].state.Open?
    ensures Registered(s.(chunks := s.chunks[id := c]))
  {
    RevisedOpen(s.chunks, s.open, id, c);
  }

  lemma RevisedChunk(s: Store, id: nat, c: Chunk)
    requires Registered(s) && id in s.chunks && ValidChunk(c) && c.id == id && c.key == s.chunks[id].key
    requires c.data == s.chunks[id].data && c.bytes == s.chunks[id].bytes
             && (c.state.Open? <==> s.chunks[id].state.Open?)
    ensures Kept(s, s.(chunks := s.chunks[id := c]))
  {
    RevisedRegistered(s, id, c);
    HeldReplace(s.chunks, id, c);
  }

  lemma NoteBatchIdValid(s: Store, id: nat, batch: string)
    requires Registered(s)
    ensures Kept(s, NoteBatchId(s, id, batch))
  {
    if id in s.chunks { RevisedChunk(s, id, s.chunks[id].(flush := s.chunks[id].flush.(batchId := Some(batch)))); }
  }

  lemma NoteFailureValid(s: Store, id: nat, now: nat)
    requires Registered(s)
    ensures Kept(s, NoteFailureById(s, id, now))
  {
    if id in s.chunks { RevisedChunk(s, id, NoteFailure(s.chunks[id], now)); }
  }

  lemma MarkCommittedValid(s: Store, id: nat, snapshot: nat)
    requires Registered(s)
    ensures Kept(s, MarkCommittedById(s, id, snapshot).0)
  {
    if id in s.chunks && MarkCommitted(s.chunks[id], snapshot).Ok? {
      RevisedChunk(s, id, MarkCommitted(s.chunks[id], snapshot).value);
    }
  }

  lemma RemovedChunk(s: Store, id: nat)
    requires Registered(s) && id in s.chunks
    ensures var c := s.chunks[id];
            ChunksOk(s.chunks - {id}, s.nextId)
            && OpenOk(s.chunks - {id}, if c.key in s.open && s.open[c.key] == id then s.open - {c.key} else s.open)
  {
  }

  lemma DiscardValid(s: Store, id: nat)
    requires Registered(s)
    ensures Kept(s, Discard(s, id).0)
  {
    if id in s.chunks {
      RemovedChunk(s, id);
      HeldRemove(s.chunks, id);
    }
  }

  lemma GiveUpValid(s: Store, id: nat)
    requires Registered(s) && id in s.chunks
    ensures Kept(s, GiveUp(s, id))
  {
    RemovedChunk(s, id);
    HeldRemove(s.chunks, id);
  }

  lemma {:induction false} ReclaimFromValid(s: Store, cached: nat, id: nat)
    requires Registered(s)
    ensures Kept(s, ReclaimFrom(s, cached, id))
    decreases s.nextId + 1 - id
  {
    if id <= s.nextId {
      ReclaimOneValid(s, cached, id);
      ReclaimFromValid(ReclaimOne(s, cached, id), cached, id + 1);
    }
  }

  function ReclaimOne(s: Store, cached: nat, id: nat): Store {
    if id in s.chunks && Reclaimable(s, s.chunks[id], cached) then GiveUp(s, id) else s
  }

  lemma ReclaimOneValid(s: Store, cached: nat, id: nat)
    requires Registered(s)
    ensures Kept(s, ReclaimOne(s, cached, id)) && ReclaimOne(s, cached, id).nextId == s.nextId
  {
    if id in s.chunks && Reclaimable(s, s.chunks[id], cached) { GiveUpValid(s, id); }
  }

  lemma ReclaimValid(s: Store, cached: nat)
    requires Registered(s)
    ensures Kept(s, Reclaim(s, cached))
  {
    ReclaimFromValid(s, cached, 0);
  }

  lemma ObserveValid(s: Store, create: bool, table: string)
    requires Registered(s)
    ensures Kept(s, Observe(s, create, table))
  {
  }

  // ---- what reclaiming gives up

  lemma {:induction false} ReclaimFromKeeps(s: Store, cached: nat, id: nat)
    requires ChunksOk(s.chunks, s.nextId)
    ensures var t := ReclaimFrom(s, cached, id);
            && t.liveness == s.liveness && t.chunks.Keys <= s.chunks.Keys
            && (forall i | i in s.chunks :: i in t.chunks <==> i < id || !Reclaimable(s, s.chunks[i], cached))
            && (forall i | i in t.chunks :: t.chunks[i] == s.chunks[i])
    decreases s.nextId + 1 - id
  {
    if id <= s.nextId {
      var u := ReclaimOne(s, cached, id);
      ReclaimOneKeeps(s, cached, id);
      ReclaimFromKeeps(u, cached, id + 1);
      assert ReclaimFrom(s, cached, id) == ReclaimFrom(u, cached, id + 1);
    }
  }

  lemma ReclaimOneKeeps(s: Store, cached: nat, id: nat)
    ensures var u := ReclaimOne(s, cached, id);
            && u.liveness == s.liveness && u.nextId == s.nextId && u.chunks.Keys <= s.chunks.Keys
            && (forall c: Chunk :: Reclaimable(u, c, cached) == Reclaimable(s, c, cached))
            && (forall i | i in s.chunks :: i in u.chunks <==> i != id || !Reclaimable(s, s.chunks[i], cached))
            && (forall i | i in u.chunks :: u.chunks[i] == s.chunks[i])
  {
  }

  ghost predicate Watermarked(s: Store, gone: set<nat>, watermark: nat) {
    s.watermark <= watermark
    && forall i | i in gone && i in s.chunks && Current(s, s.chunks[i].key) ::
         s.chunks[i].flush.committed.Some? && s.chunks[i].flush.committed.value <= watermark
  }

  lemma {:induction false} ReclaimFromWatermark(s: Store, cached: nat, id: nat)
    requires ChunksOk(s.chunks, s.nextId)
    ensures var t := ReclaimFrom(s, cached, id);
            t.liveness == s.liveness && Watermarked(s, s.chunks.Keys - t.chunks.Keys, t.watermark)
    decreases s.nextId + 1 - id
  {
    if id <= s.nextId {
      var u, t := ReclaimOne(s, cached, id), ReclaimFrom(s, cached, id);
      ReclaimFromWatermark(u, cached, id + 1);
      forall i | i in s.chunks && i !in t.chunks && Current(s, s.chunks[i].key)
        ensures s.chunks[i].flush.committed.Some? && s.chunks[i].flush.committed.value <= t.watermark
      {
        if i in u.chunks {
          assert i in u.chunks.Keys - t.chunks.Keys && u.chunks[i] == s.chunks[i] && Current(u, u.chunks[i].key);
        } else {
          assert i == id && CaughtUp(s.chunks[i], cached);
        }
      }
    }
  }

  /** Exactly the chunks of dropped tables and the committed ones the readers caught up with are given up,
      and the watermark is raised to cover every commit among the latter. */
  lemma ReclaimSpec(s: Store, cached: nat)
    requires Registered(s)
    ensures var t := Reclaim(s, cached);
            && t.liveness == s.liveness && s.watermark <= t.watermark && t.chunks.Keys <= s.chunks.Keys
            && (forall i | i in s.chunks ::
                  i in t.chunks <==> Current(s, s.chunks[i].key) && !CaughtUp(s.chunks[i], cached))
            && (forall i | i in t.chunks :: t.chunks[i] == s.chunks[i])
            && (forall i | i in s.chunks && i !in t.chunks && Current(s, s.chunks[i].key) ::
                  s.chunks[i].flush.committed.Some? && s.chunks[i].flush.committed.value <= t.watermark)
  {
    ReclaimFromKeeps(s, cached, 0);
    ReclaimFromWatermark(s, cached, 0);
  }
}

/** What appending, sealing, spilling and failing flushes leave of the chunks that were there. */
module ChunkFrames {
  import opened CatalogModel
  import opened ChunkModel
  import opened ChunkOps
  import opened ChunkRegistry

  /** Same owner and age, same batch, same commit; and once closed, same content. */
  ghost predicate SameProgress(c: Chunk, d: Chunk) {
    && d.key == c.key && d.createdAt == c.createdAt && d.flush.committed == c.flush.committed
        && d.flush.batchId == c.flush.batchId
    && (!c.state.Open? ==> !d.state.Open? && d.data.batches == c.data.batches)
  }

  /** No chunk is lost; chunks that were not there are new, for keys among `keys`. */
  ghost predicate Extends(s: Store, t: Store, keys: set<ChunkKey>) {
    && s.chunks.Keys <= t.chunks.Keys && t.liveness == s.liveness && t.watermark == s.watermark && s.nextId <= t.nextId
    && (forall id | id in s.chunks :: SameProgress(s.chunks[id], t.chunks[id]))
    && (forall id | id in t.chunks && id !in s.chunks ::
          s.nextId < id <= t.nextId && t.chunks[id].key in keys
          && t.chunks[id].flush.committed.None? && t.chunks[id].flush.batchId.None?)
  }

  lemma ExtendsTrans(s: Store, t: Store, u: Store, keys: set<ChunkKey>)
    requires Extends(s, t, keys) && Extends(t, u, keys)
    ensures Extends(s, u, keys)
  {
    forall id | id in s.chunks ensures SameProgress(s.chunks[id], u.chunks[id]) {
      assert SameProgress(s.chunks[id], t.chunks[id]) && SameProgress(t.chunks[id], u.chunks[id]);
    }
    forall id | id in u.chunks && id !in s.chunks
      ensures s.nextId < id <= u.nextId && u.chunks[id].key in keys
      ensures u.chunks[id].flush.committed.None? && u.chunks[id].flush.batchId.None?
    {
      if id in t.chunks { assert SameProgress(t.chunks[id], u.chunks[id]); }
    }
  }

  lemma CloseExtends(s: Store, id: nat, reason: SealReason, pressure: Option<Pressure>, now: nat, keys: set<ChunkKey>)
    requires id in s.chunks
    ensures Extends(s, CloseChunk(s, id, reason, pressure, now), keys)
  {
  }

  lemma SealExtends(s: Store, id: nat, now: nat)
    ensures Extends(s, SealById(s, id, now), {})
  {
  }

  lemma SpillExtends(s: Store, id: nat, keys: set<ChunkKey>)
    ensures Extends(s, SpillById(s, id).0, keys)
  {
  }

  lemma FailureExtends(s: Store, id: nat, now: nat)
    ensures Extends(s, NoteFailureById(s, id, now), {})
  {
  }

  lemma CloseAllExtends(s: Store, pressure: Pressure, now: nat)
    ensures Extends(s, CloseAllOpen(s, pressure, now), {})
  {
  }

  lemma {:induction false} SpillUntilExtends(cfg: Config, s: Store, n: nat)
    ensures Extends(s, SpillUntilNormal(cfg, s, n), {})
    decreases n
  {
    if n > 0 && PressureOf(cfg, s).NeedsSpill() && OldestSpillable(s, 0).Some? {
      var t, ok := SpillById(s, OldestSpillable(s, 0).value).0, SpillById(s, OldestSpillable(s, 0).value).1;
      if ok {
        SpillExtends(s, OldestSpillable(s, 0).value, {});
        SpillUntilExtends(cfg, t, n - 1);
        ExtendsTrans(s, t, SpillUntilNormal(cfg, t, n - 1), {});
      }
    }
  }

  lemma EnforceExtends(cfg: Config, s: Store, now: nat)
    ensures Extends(s, EnforcePressure(cfg, s, now), {})
  {
    var p := PressureOf(cfg, s);
    if p.NeedsSpill() {
      var t := if p.NeedsForceSeal() then CloseAllOpen(s, p, now) else s;
      CloseAllExtends(s, p, now);
      SpillUntilExtends(cfg, t, 64);
      ExtendsTrans(s, t, SpillUntilNormal(cfg, t, 64), {});
    }
  }

  lemma EnsureOpenExtends(s: Store, key: ChunkKey, schemaVersion: nat, schema: string, now: nat)
    requires ChunksOk(s.chunks, s.nextId)
    ensures Extends(s, EnsureOpen(s, key, schemaVersion, schema, now), {key})
  {
  }

  lemma {:induction false} AppendAllKeeps(c: Chunk, seqNo: nat, batches: seq<Batch>)
    requires c.state.Open?
    ensures SameProgress(c, AppendAll(c, seqNo, batches).0) && AppendAll(c, seqNo, batches).0.state.Open?
    decreases |batches|
  {
    if batches != [] && AppendBatch(c, seqNo, batches[0]).Ok? {
      AppendAllKeeps(AppendBatch(c, seqNo, batches[0]).value, seqNo, batches[1..]);
    }
  }

  lemma FillExtends(t: Store, id: nat, seqNo: nat, batches: seq<Batch>, keys: set<ChunkKey>)
    requires id in t.chunks && t.chunks[id].state.Open?
    ensures Extends(t, Fill(t, id, seqNo, batches), keys)
  {
    AppendAllKeeps(t.chunks[id], seqNo, batches);
  }

  lemma ReserveExtends(cfg: Config, s: Store, added: nat, keys: set<ChunkKey>)
    ensures Extends(s, Reserve(cfg, s, added), keys)
  {
    if s.used + added > cfg.limit && OldestSpillable(s, 0).Some? { SpillExtends(s, OldestSpillable(s, 0).value, keys); }
  }

  lemma ReadyExtends(cfg: Config, s: Store, key: ChunkKey, schemaVersion: nat, schema: string, now: nat)
    requires Registered(s)
    ensures Extends(s, Ready(cfg, s, key, schemaVersion, schema, now), {key})
  {
    var p := PressureOf(cfg, s);
    var t := CloseOutdated(s, key, schemaVersion, p, now);
    CloseOutdatedValid(s, key, schemaVersion, p, now);
    if Outdated(s, key, schemaVersion) { CloseExtends(s, s.open[key], SchemaEvolved, Some(p), now, {key}); }
    EnsureOpenExtends(t, key, schemaVersion, schema, now);
    ExtendsTrans(s, t, EnsureOpen(t, key, schemaVersion, schema, now), {key});
  }

  lemma CloseIfDueExtends(cfg: Config, u: Store, id: nat, pressure: Pressure, now: nat, keys: set<ChunkKey>)
    requires id in u.chunks
    ensures Extends(u, CloseIfDue(cfg, u, id, pressure, now), keys)
  {
    if ShouldSeal(cfg, u.chunks[id], now).Some? {
      CloseExtends(u, id, ShouldSeal(cfg, u.chunks[id], now).value, Some(pressure), now, keys);
    }
  }

  lemma DeliverExtends(cfg: Config, t: Store, id: nat, seqNo: nat, batches: seq<Batch>, pressure: Pressure, now: nat,
                       keys: set<ChunkKey>)
    requires id in t.chunks && t.chunks[id].state.Open?
    ensures Extends(t, Deliver(cfg, t, id, seqNo, batches, pressure, now).0, keys)
  {
    var u := Fill(t, id, seqNo, batches);
    FillExtends(t, id, seqNo, batches, keys);
    var v := CloseIfDue(cfg, u, id, pressure, now);
    CloseIfDueExtends(cfg, u, id, pressure, now, keys);
    ExtendsTrans(t, u, v, keys);
    ReserveExtends(cfg, v, BytesOf(batches), keys);
    ExtendsTrans(t, v, Reserve(cfg, v, BytesOf(batches)), keys);
  }

  lemma AppendExtends(cfg: Config, s: Store, key: ChunkKey, schemaVersion: nat, schema: string, seqNo: nat,
                      batches: seq<Batch>, now: nat)
    requires Registered(s)
    ensures Extends(s, Append(cfg, s, key, schemaVersion, schema, seqNo, batches, now).0, {key})
  {
    var t := Ready(cfg, s, key, schemaVersion, schema, now);
    if batches != [] && !PressureOf(cfg, s).Reject? {
      ReadyValid(cfg, s, key, schemaVersion, schema, now);
      ReadyExtends(cfg, s, key, schemaVersion, schema, now);
      DeliverExtends(cfg, t, t.open[key], seqNo, batches, PressureOf(cfg, s), now, {key});
      ExtendsTrans(s, t, Deliver(cfg, t, t.open[key], seqNo, batches, PressureOf(cfg, s), now).0, {key});
    }
  }
}

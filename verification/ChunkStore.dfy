/** The chunk registry and memory ledger of one node, updated in place. Each method is proved against the
    function that specifies it; what those functions keep is proved in the modules beside this one. */
module ChunkStoreClass {
  import opened Common
  import opened CatalogModel
  import opened ChunkModel
  import opened ChunkOps
  import opened ChunkRegistry

  datatype FlushPlan = FlushPlan(seal: seq<nat>, flush: seq<nat>, yielded: nat)

  function ForceClosed(c: Chunk, p: Pressure, now: nat): Chunk {
    c.(state := Sealed, seal := Some(Seal(now, UnderPressure, Some(p))))
  }

  function CloseChunks(chunks: map<nat, Chunk>, ids: set<nat>, p: Pressure, now: nat): map<nat, Chunk> {
    map id | id in chunks :: if id in ids then ForceClosed(chunks[id], p, now) else chunks[id]
  }

  function StillOpen(open: map<ChunkKey, nat>, ids: set<nat>): map<ChunkKey, nat> {
    map k | k in open && open[k] !in ids :: open[k]
  }

  /** Closing only some of the open chunks. */
  function CloseSome(s: Store, ids: set<nat>, p: Pressure, now: nat): Store {
    s.(chunks := CloseChunks(s.chunks, ids, p, now), open := StillOpen(s.open, ids),
       pendingSeal := s.pendingSeal - ids, version := s.version + |ids|)
  }

  lemma CloseNone(s: Store, p: Pressure, now: nat)
    ensures CloseSome(s, {}, p, now) == s
  {
    assert CloseChunks(s.chunks, {}, p, now) == s.chunks;
    assert StillOpen(s.open, {}) == s.open;
    assert s.pendingSeal - {} == s.pendingSeal;
  }

  lemma OneMoreChunk(chunks: map<nat, Chunk>, ids: set<nat>, id: nat, p: Pressure, now: nat)
    requires id in chunks && id !in ids
    ensures CloseChunks(chunks, ids, p, now)[id] == chunks[id]
    ensures CloseChunks(chunks, ids, p, now)[id := ForceClosed(chunks[id], p, now)]
            == CloseChunks(chunks, ids + {id}, p, now)
  {
  }

  lemma OneMoreOpen(s: Store, ids: set<nat>, id: nat)
    requires OpenOk(s.chunks, s.open) && id in s.open.Values && id !in ids
    ensures StillOpen(s.open, ids) - {s.chunks[id].key} == StillOpen(s.open, ids + {id})
  {
  }

  lemma OneMorePending<T>(m: map<nat, T>, ids: set<nat>, id: nat, v: T)
    ensures (m - ids)[id := v] - {id} == m - (ids + {id})
  {
  }

  function SealForced(s: Store, id: nat, p: Pressure, now: nat): Store {
    ChunkOps.SealById(s.(pendingSeal := s.pendingSeal[id := (UnderPressure, Some(p))]), id, now)
  }

  function SealList(s: Store, ids: seq<nat>, p: Pressure, now: nat): Store
    decreases |ids|
  {
    if ids == [] then s else SealList(SealForced(s, ids[0], p, now), ids[1..], p, now)
  }

  function Members(ids: seq<nat>): set<nat> {
    set id | id in ids
  }

  lemma CloseOneMore(s: Store, ids: set<nat>, id: nat, p: Pressure, now: nat)
    requires Registered(s) && id in s.open.Values && id !in ids
    ensures SealForced(CloseSome(s, ids, p, now), id, p, now) == CloseSome(s, ids + {id}, p, now)
  {
    OneMoreChunk(s.chunks, ids, id, p, now);
    OneMoreOpen(s, ids, id);
    OneMorePending(s.pendingSeal, ids, id, (UnderPressure, Some(p)));
  }

  lemma CloseSomeAll(s: Store, p: Pressure, now: nat)
    requires Registered(s)
    ensures CloseSome(s, s.open.Values, p, now) == CloseAllOpen(s, p, now)
  {
    var t, u := CloseSome(s, s.open.Values, p, now), CloseAllOpen(s, p, now);
    assert t.chunks == u.chunks;
    assert t.open == u.open;
  }

  lemma FirstOfList(ids: seq<nat>, done: set<nat>)
    requires ids != [] && NoRepeat(ids) && done !! Members(ids)
    ensures NoRepeat(ids[1..]) && Members(ids[1..]) <= Members(ids) && ids[0] in Members(ids)
    ensures done + {ids[0]} !! Members(ids[1..]) && done + {ids[0]} + Members(ids[1..]) == done + Members(ids)
  {
    assert ids == [ids[0]] + ids[1..];
  }

  lemma {:induction false} SealListSome(s: Store, done: set<nat>, ids: seq<nat>, p: Pressure, now: nat)
    requires Registered(s) && NoRepeat(ids) && Members(ids) <= s.open.Values && done !! Members(ids)
    ensures SealList(CloseSome(s, done, p, now), ids, p, now) == CloseSome(s, done + Members(ids), p, now)
    decreases |ids|
  {
    if ids == [] {
      assert done + Members(ids) == done;
    } else {
      FirstOfList(ids, done);
      CloseOneMore(s, done, ids[0], p, now);
      SealListSome(s, done + {ids[0]}, ids[1..], p, now);
    }
  }

  /** Whatever the order, sealing every open chunk closes them all. */
  lemma SealListAll(s: Store, ids: seq<nat>, p: Pressure, now: nat)
    requires Registered(s) && NoRepeat(ids) && Members(ids) == s.open.Values
    ensures SealList(s, ids, p, now) == CloseAllOpen(s, p, now)
  {
    CloseNone(s, p, now);
    SealListSome(s, {}, ids, p, now);
    CloseSomeAll(s, p, now);
    assert {} + Members(ids) == s.open.Values;
  }

  function DueToSeal(cfg: Config, chunks: map<nat, Chunk>, now: nat): set<nat> {
    set id | id in chunks && SealDue(cfg, chunks[id], now)
  }

  function DueToFlush(cfg: Config, p: Pressure, chunks: map<nat, Chunk>, now: nat): set<nat> {
    set id | id in chunks && FlushDue(cfg, p, chunks[id], now)
  }

  /** The flushes of closed chunks whose phase is not over yet. */
  function BroughtForward(cfg: Config, p: Pressure, chunks: map<nat, Chunk>, now: nat, bound: nat): set<nat> {
    set id | id in DueToFlush(cfg, p, chunks, now) && id < bound && Yields(cfg, p, chunks[id], now)
  }

  function Reasons(cfg: Config, p: Pressure, chunks: map<nat, Chunk>, now: nat, ids: seq<nat>)
    : map<nat, (SealReason, Option<Pressure>)>
  {
    map id | id in ids && id in chunks :: (SealReasonOf(cfg, chunks[id], now), Some(p))
  }

  lemma ReasonsStep(m: map<nat, (SealReason, Option<Pressure>)>, cfg: Config, p: Pressure, chunks: map<nat, Chunk>,
                    now: nat, ids: seq<nat>, i: nat)
    requires i < |ids| && ids[i] in chunks
    ensures m + Reasons(cfg, p, chunks, now, ids[..i + 1])
            == (m + Reasons(cfg, p, chunks, now, ids[..i]))[ids[i] := (SealReasonOf(cfg, chunks[ids[i]], now), Some(p))]
  {
    assert ids[..i + 1] == ids[..i] + [ids[i]];
  }

  /** `ids` lists the members of `p` below `bound` in ascending order. */
  ghost predicate Selects(ids: seq<nat>, p: set<nat>, bound: nat) {
    && (forall i, j | 0 <= i < j < |ids| :: ids[i] < ids[j])
    && (forall id :: id in ids <==> id in p && id < bound)
  }

  lemma SelectStep(ids: seq<nat>, p: set<nat>, bound: nat)
    requires Selects(ids, p, bound)
    ensures Selects(if bound in p then ids + [bound] else ids, p, bound + 1)
  {
    forall i | 0 <= i < |ids| ensures ids[i] < bound {
      assert ids[i] in ids;
    }
  }

  lemma ForwardStep(cfg: Config, p: Pressure, chunks: map<nat, Chunk>, now: nat, bound: nat)
    ensures |BroughtForward(cfg, p, chunks, now, bound + 1)|
            == |BroughtForward(cfg, p, chunks, now, bound)|
               + if bound in DueToFlush(cfg, p, chunks, now) && Yields(cfg, p, chunks[bound], now) then 1 else 0
  {
    var a, b := BroughtForward(cfg, p, chunks, now, bound), BroughtForward(cfg, p, chunks, now, bound + 1);
    assert b == if bound in b then a + {bound} else a;
  }

  datatype ShardRead = ShardRead(chunks: set<nat>, watermark: nat, stale: bool)

  class ChunkStore {
    const cfg: Config
    var chunks: map<nat, Chunk>
    var open: map<ChunkKey, nat>
    var pendingSeal: map<nat, (SealReason, Option<Pressure>)>
    var liveness: map<string, Liveness>
    var used: int
    var version: nat
    var nextId: nat
    var watermark: nat
    var yielded: nat

    function View(): Store
      reads this
    {
      Store(chunks, open, pendingSeal, liveness, used, version, nextId, watermark, yielded)
    }

    constructor (cfg: Config)
      ensures View() == EmptyStore() && this.cfg == cfg
    {
      this.cfg := cfg;
      chunks, open, pendingSeal, liveness := map[], map[], map[], map[];
      used, version, nextId, watermark, yielded := 0, 0, 0, 0, 0;
    }

    // ---- appending

    method Append(key: ChunkKey, schemaVersion: nat, schema: string, seqNo: nat, batches: seq<Batch>, now: nat)
      returns (r: Result<Outcome>)
      modifies this
      ensures (View(), r) == ChunkOps.Append(cfg, old(View()), key, schemaVersion, schema, seqNo, batches, now)
    {
      if batches == [] { return Err(InvalidState); }
      var pressure := Classify(used, cfg.limit);
      if pressure.Reject? { return Err(ResourceExhausted); }
      var outdated := CloseOutdated(key, schemaVersion, pressure, now);
      EnsureOpen(key, schemaVersion, schema, now);
      var id := open[key];
      if id !in chunks { return Err(InvalidState); }
      var filled, due := Deliver(id, seqNo, batches, pressure, now);
      if !filled { return Err(SchemaMismatch); }
      var after := Classify(used, cfg.limit);
      version := version + 1;
      return Ok(Outcome(id, if due.Some? then due else outdated, after));
    }

    method Deliver(id: nat, seqNo: nat, batches: seq<Batch>, pressure: Pressure, now: nat)
      returns (ok: bool, due: Option<(nat, SealReason)>)
      requires id in chunks
      modifies this
      ensures (View(), ok) == ChunkOps.Deliver(cfg, old(View()), id, seqNo, batches, pressure, now)
      ensures ok ==> due == DueClose(cfg, old(View()), id, seqNo, batches, now)
    {
      due := None;
      ok := FillChunk(id, seqNo, batches);
      if ok {
        due := CloseIfDue(id, pressure, now);
        Reserve(BytesOf(batches));
      }
    }

    /** A new schema version closes the open chunk of the key. */
    method CloseOutdated(key: ChunkKey, schemaVersion: nat, pressure: Pressure, now: nat)
      returns (closed: Option<(nat, SealReason)>)
      modifies this`chunks, this`open
      ensures View() == ChunkOps.CloseOutdated(old(View()), key, schemaVersion, pressure, now)
      ensures closed == if Outdated(old(View()), key, schemaVersion) then Some((old(open)[key], SchemaEvolved))
              else None
    {
      if key in open && open[key] in chunks && chunks[open[key]].schemaVersion != schemaVersion {
        var prev := open[key];
        CloseChunk(prev, SchemaEvolved, pressure, now);
        return Some((prev, SchemaEvolved));
      }
      return None;
    }

    method CloseChunk(id: nat, reason: SealReason, pressure: Pressure, now: nat)
      requires id in chunks
      modifies this`chunks, this`open
      ensures View() == ChunkOps.CloseChunk(old(View()), id, reason, Some(pressure), now)
    {
      var c := chunks[id];
      chunks := chunks[id := c.(state := Sealed, seal := Some(Seal(now, reason, Some(pressure))))];
      open := open - {c.key};
    }

    method EnsureOpen(key: ChunkKey, schemaVersion: nat, schema: string, now: nat)
      modifies this`chunks, this`open, this`nextId
      ensures View() == ChunkOps.EnsureOpen(old(View()), key, schemaVersion, schema, now)
    {
      if key !in open {
        nextId := nextId + 1;
        chunks := chunks[nextId := NewChunk(nextId, key, schemaVersion, schema, now)];
        open := open[key := nextId];
      }
    }

    method CloseIfDue(id: nat, pressure: Pressure, now: nat) returns (closed: Option<(nat, SealReason)>)
      requires id in chunks
      modifies this`chunks, this`open
      ensures View() == ChunkOps.CloseIfDue(cfg, old(View()), id, pressure, now)
      ensures closed == var reason := ShouldSeal(cfg, old(chunks)[id], now);
              if reason.Some? then Some((id, reason.value)) else None
    {
      var reason := ShouldSeal(cfg, chunks[id], now);
      if reason.None? { return None; }
      CloseChunk(id, reason.value, pressure, now);
      return Some((id, reason.value));
    }

    /** Visible data is never refused for lack of memory: one chunk is moved out, then the bytes are recorded. */
    method Reserve(added: nat)
      modifies this
      ensures View() == ChunkOps.Reserve(cfg, old(View()), added)
    {
      if used + added > cfg.limit { RelieveOnce(); }
      used := used + added;
    }

    /** Appends batch after batch and stops at the first that is refused. */
    method FillChunk(id: nat, seqNo: nat, batches: seq<Batch>) returns (ok: bool)
      requires id in chunks
      modifies this`chunks
      ensures View() == Fill(old(View()), id, seqNo, batches)
      ensures ok == AppendAll(old(chunks)[id], seqNo, batches).1
    {
      var c := chunks[id];
      for i := 0 to |batches|
        invariant AppendAll(chunks[id], seqNo, batches) == AppendAll(c, seqNo, batches[i..])
        invariant chunks == old(chunks)
      {
        assert batches[i..][0] == batches[i] && batches[i..][1..] == batches[i + 1..];
        match AppendBatch(c, seqNo, batches[i]) {
          case Err(_) =>
            chunks := chunks[id := c];
            return false;
          case Ok(d) => c := d;
        }
      }
      chunks := chunks[id := c];
      return true;
    }

    // ---- sealing and spilling

    method SealById(id: nat, now: nat)
      modifies this
      ensures View() == ChunkOps.SealById(old(View()), id, now)
    {
      if id !in chunks { return; }
      var key := chunks[id].key;
      var why := if id in pendingSeal then pendingSeal[id] else (ByHand, None);
      pendingSeal := pendingSeal - {id};
      if chunks[id].state.Open? {
        chunks := chunks[id := chunks[id].(state := Sealed, seal := Some(Seal(now, why.0, why.1)))];
        open := open - {key};
      } else if key in open && open[key] == id {
        open := open - {key};
      }
      version := version + 1;
    }

    method SpillById(id: nat) returns (ok: bool)
      modifies this
      ensures (View(), ok) == ChunkOps.SpillById(old(View()), id)
    {
      if id !in chunks || !chunks[id].NeedsSpill() { return true; }
      var c := chunks[id];
      if c.data.batches == [] { return false; }
      chunks := chunks[id := c.(state := Spilled, data := OnDisk(c.data.batches))];
      used := used - c.bytes;
      version := version + 1;
      return true;
    }

    method OldestSpillable() returns (r: Option<nat>)
      ensures r == ChunkOps.OldestSpillable(View(), 0)
    {
      var id := 0;
      while id <= nextId
        invariant id <= nextId + 1
        invariant ChunkOps.OldestSpillable(View(), 0) == ChunkOps.OldestSpillable(View(), id)
      {
        if id in chunks && chunks[id].NeedsSpill() { return Some(id); }
        id := id + 1;
      }
      return None;
    }

    method RelieveOnce()
      modifies this
      ensures View() == ChunkOps.RelieveOnce(old(View()))
    {
      var r := OldestSpillable();
      if r.Some? { var _ := SpillById(r.value); }
    }

    // ---- pressure

    /** Under hard pressure every open chunk is closed first; then chunks are moved to disk, oldest first, until
        the pressure is normal, nothing is left to move, or 64 were moved. */
    method EnforcePressure(now: nat)
      requires Registered(View())
      modifies this
      ensures View() == ChunkOps.EnforcePressure(cfg, old(View()), now)
    {
      var p := Classify(used, cfg.limit);
      if !p.NeedsSpill() { return; }
      if p.NeedsForceSeal() { ForceSeal(p, now); }
      ghost var start := View();
      var left := 64;
      while left > 0
        invariant SpillUntilNormal(cfg, View(), left) == SpillUntilNormal(cfg, start, 64)
      {
        if !Classify(used, cfg.limit).NeedsSpill() { return; }
        var oldest := OldestSpillable();
        if oldest.None? { return; }
        ghost var s := View();
        var ok := SpillById(oldest.value);
        if !ok { return; }
        left := left - 1;
      }
    }

    method ForceSeal(p: Pressure, now: nat)
      requires Registered(View())
      modifies this
      ensures View() == CloseAllOpen(old(View()), p, now)
    {
      var ids := OpenIds();
      SealListAll(View(), ids, p, now);
      SealEach(ids, p, now);
    }

    method OpenIds() returns (ids: seq<nat>)
      ensures NoRepeat(ids) && Members(ids) == open.Values
    {
      ids := [];
      var todo := open.Values;
      while todo != {}
        invariant NoRepeat(ids) && Members(ids) + todo == open.Values && Members(ids) !! todo
        decreases todo
      {
        var id :| id in todo;
        assert id !in Members(ids);
        ids, todo := ids + [id], todo - {id};
      }
    }

    method SealEach(ids: seq<nat>, p: Pressure, now: nat)
      modifies this
      ensures View() == SealList(old(View()), ids, p, now)
    {
      ghost var start := View();
      for i := 0 to |ids|
        invariant SealList(View(), ids[i..], p, now) == SealList(start, ids, p, now)
      {
        assert ids[i..][0] == ids[i] && ids[i..][1..] == ids[i + 1..];
        SealFor(ids[i], p, now);
      }
    }

    /** The reason is registered first; sealing picks it up. */
    method SealFor(id: nat, p: Pressure, now: nat)
      modifies this
      ensures View() == SealForced(old(View()), id, p, now)
    {
      pendingSeal := pendingSeal[id := (UnderPressure, Some(p))];
      SealById(id, now);
    }

    // ---- the batch of a chunk and its commit

    method NoteBatchId(id: nat, batch: string)
      modifies this`chunks
      ensures View() == ChunkOps.NoteBatchId(old(View()), id, batch)
    {
      if id in chunks {
        chunks := chunks[id := chunks[id].(flush := chunks[id].flush.(batchId := Some(batch)))];
      }
    }

    method MarkCommitted(id: nat, snapshot: nat) returns (ok: bool)
      modifies this
      ensures (View(), ok) == MarkCommittedById(old(View()), id, snapshot)
    {
      if id !in chunks { return true; }
      match ChunkModel.MarkCommitted(chunks[id], snapshot) {
        case Err(_) => return false;
        case Ok(c) =>
          chunks := chunks[id := c];
          version := version + 1;
          return true;
      }
    }

    method NoteFlushFailure(id: nat, now: nat)
      modifies this`chunks
      ensures View() == NoteFailureById(old(View()), id, now)
    {
      if id in chunks { chunks := chunks[id := NoteFailure(chunks[id], now)]; }
    }

    // ---- giving up copies

    /** The table was dropped, or created again since. */
    predicate Stale(key: ChunkKey)
      reads this
    {
      !Current(View(), key)
    }

    method Discard(id: nat) returns (found: bool)
      modifies this
      ensures (View(), found) == ChunkOps.Discard(old(View()), id)
    {
      if id !in chunks { return false; }
      var c := chunks[id];
      chunks := chunks - {id};
      if c.key in open && open[c.key] == id { open := open - {c.key}; }
      used := used - ResidentBytes(c);
      version := version + 1;
      return true;
    }

    method GiveUp(id: nat, dropped: bool)
      requires id in chunks && dropped == !Current(View(), chunks[id].key)
      modifies this
      ensures View() == ChunkOps.GiveUp(old(View()), id)
    {
      var c := chunks[id];
      if !dropped && c.flush.committed.Some? { watermark := Max(watermark, c.flush.committed.value); }
      used := used - ResidentBytes(c);
      chunks := chunks - {id};
      if c.key in open && open[c.key] == id { open := open - {c.key}; }
    }

    method Reclaim(cached: nat) returns (freed: int)
      requires Registered(View())
      modifies this
      ensures View() == ChunkOps.Reclaim(old(View()), cached)
      ensures freed == Held(old(chunks)) - Held(chunks)
      ensures Registered(View())
    {
      ghost var start := View();
      ReclaimValid(start, cached);
      freed := 0;
      var before := chunks;
      var id := 0;
      while id <= nextId
        invariant id <= nextId + 1 && before == start.chunks
        invariant freed == start.used - used
        invariant ReclaimFrom(View(), cached, id) == ReclaimFrom(start, cached, 0)
      {
        if id in chunks {
          var c := chunks[id];
          var l := if c.key.table in liveness then liveness[c.key.table] else Liveness(true, 0);
          var dropped := l != Liveness(true, c.key.epoch);
          if dropped || CaughtUp(c, cached) {
            freed := freed + ResidentBytes(c);
            GiveUp(id, dropped);
          }
        }
        id := id + 1;
      }
      if chunks != before { version := version + 1; }
    }

    method ObserveDdl(create: bool, table: string)
      modifies this
      ensures View() == Observe(old(View()), create, table)
    {
      var l := if table in liveness then liveness[table] else Liveness(true, 0);
      liveness := liveness[table := if create then Liveness(true, l.epoch + 1) else l.(alive := false)];
      version := version + 1;
    }

    // ---- reading

    method VisibleChunksExcluding(table: string, cached: nat, exclude: set<string>) returns (r: set<nat>)
      requires Registered(View())
      ensures r == VisibleChunks(View(), table, cached, exclude)
    {
      r := {};
      var id := 0;
      while id <= nextId
        invariant id <= nextId + 1
        invariant r == set i | i in VisibleChunks(View(), table, cached, exclude) && i < id
      {
        if id in chunks && Listed(View(), chunks[id], table, cached, exclude) { r := r + {id}; }
        id := id + 1;
      }
    }

    /** The rows first, the watermark afterwards. */
    method ReadShardExcluding(table: string, shard: string, window: string, cached: nat,
                              exclude: set<string>) returns (r: ShardRead)
      requires Registered(View())
      ensures r.chunks == set i | i in VisibleChunks(View(), table, cached, exclude)
                                  && chunks[i].key.shard == shard && chunks[i].key.window == window
      ensures r.watermark == watermark && r.stale == (watermark > cached)
    {
      var all := VisibleChunksExcluding(table, cached, exclude);
      var mine := set i | i in all && chunks[i].key.shard == shard && chunks[i].key.window == window;
      r := ShardRead(mine, watermark, watermark > cached);
    }

    /** The watermark first, the rows afterwards. */
    method ReadTableExcluding(table: string, cached: nat, exclude: set<string>) returns (r: ShardRead)
      requires Registered(View())
      ensures r == ShardRead(VisibleChunks(View(), table, cached, exclude), watermark, watermark > cached)
    {
      var w := watermark;
      var all := VisibleChunksExcluding(table, cached, exclude);
      r := ShardRead(all, w, w > cached);
    }

    // ---- the plan

    /** Which chunks to close and which to flush now, oldest first. Nothing is changed but the reasons for the
        coming seals and the count of flushes that memory pressure brought forward. */
    method PlanFlush(now: nat) returns (plan: FlushPlan)
      modifies this`pendingSeal, this`yielded
      ensures var p := Classify(used, cfg.limit);
              && Selects(plan.seal, DueToSeal(cfg, chunks, now), nextId + 1)
              && Selects(plan.flush, DueToFlush(cfg, p, chunks, now), nextId + 1)
              && plan.yielded == |BroughtForward(cfg, p, chunks, now, nextId + 1)|
              && pendingSeal == old(pendingSeal) + Reasons(cfg, p, chunks, now, plan.seal)
      ensures yielded == old(yielded) + plan.yielded
    {
      var p := Classify(used, cfg.limit);
      ghost var toSeal, toFlush := DueToSeal(cfg, chunks, now), DueToFlush(cfg, p, chunks, now);
      var seals: seq<nat>, flushes: seq<nat>, early := [], [], 0;
      var id := 0;
      while id <= nextId
        invariant id <= nextId + 1 && pendingSeal == old(pendingSeal) && yielded == old(yielded) + early
        invariant Selects(seals, toSeal, id) && Selects(flushes, toFlush, id)
        invariant early == |BroughtForward(cfg, p, chunks, now, id)|
      {
        SelectStep(seals, toSeal, id);
        SelectStep(flushes, toFlush, id);
        ForwardStep(cfg, p, chunks, now, id);
        if id in chunks {
          if SealDue(cfg, chunks[id], now) { seals := seals + [id]; }
          if FlushDue(cfg, p, chunks[id], now) {
            if Yields(cfg, p, chunks[id], now) { early, yielded := early + 1, yielded + 1; }
            flushes := flushes + [id];
          }
        }
        id := id + 1;
      }
      NoteReasons(p, now, seals);
      plan := FlushPlan(seals, flushes, early);
    }

    /** The reasons are kept for the seals that follow. */
    method NoteReasons(p: Pressure, now: nat, seals: seq<nat>)
      requires forall id | id in seals :: id in chunks
      modifies this`pendingSeal
      ensures pendingSeal == old(pendingSeal) + Reasons(cfg, p, chunks, now, seals)
    {
      for i := 0 to |seals|
        invariant pendingSeal == old(pendingSeal) + Reasons(cfg, p, chunks, now, seals[..i])
      {
        ReasonsStep(old(pendingSeal), cfg, p, chunks, now, seals, i);
        pendingSeal := pendingSeal[seals[i] := (SealReasonOf(cfg, chunks[seals[i]], now), Some(p))];
      }
      assert seals[..|seals|] == seals;
    }
  }
}

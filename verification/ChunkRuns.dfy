/** The chunk store over whole runs of its operations. */
module ChunkRuns {
  import opened ChunkModel
  import opened ChunkOps
  import opened ChunkRegistry

  datatype StoreOp =
    | Appending(key: ChunkKey, schemaVersion: nat, schema: string, seqNo: nat, batches: seq<Batch>, now: nat)
    | Sealing(id: nat, now: nat)
    | Spilling(id: nat)
    | Enforcing(now: nat)
    | Naming(id: nat, batch: string)
    | Marking(id: nat, snapshot: nat)
    | Failing(id: nat, now: nat)
    | Discarding(id: nat)
    | Reclaiming(cached: nat)
    | Observing(create: bool, table: string)

  function StepStore(cfg: Config, s: Store, op: StoreOp): Store {
    match op
    case Appending(key, schemaVersion, schema, seqNo, batches, now) =>
      Append(cfg, s, key, schemaVersion, schema, seqNo, batches, now).0
    case Sealing(id, now) => SealById(s, id, now)
    case Spilling(id) => SpillById(s, id).0
    case Enforcing(now) => EnforcePressure(cfg, s, now)
    case Naming(id, batch) => NoteBatchId(s, id, batch)
    case Marking(id, snapshot) => MarkCommittedById(s, id, snapshot).0
    case Failing(id, now) => NoteFailureById(s, id, now)
    case Discarding(id) => Discard(s, id).0
    case Reclaiming(cached) => Reclaim(s, cached)
    case Observing(create, table) => Observe(s, create, table)
  }

  function RunStore(cfg: Config, s: Store, ops: seq<StoreOp>): Store
    decreases |ops|
  {
    if ops == [] then s else RunStore(cfg, StepStore(cfg, s, ops[0]), ops[1..])
  }

  /** The bytes that the operation puts into a chunk without counting them. */
  function SlipOf(cfg: Config, s: Store, op: StoreOp): nat {
    if op.Appending? then Slip(cfg, s, op.key, op.schemaVersion, op.schema, op.batches) else 0
  }

  function Slips(cfg: Config, s: Store, ops: seq<StoreOp>): nat
    decreases |ops|
  {
    if ops == [] then 0 else SlipOf(cfg, s, ops[0]) + Slips(cfg, StepStore(cfg, s, ops[0]), ops[1..])
  }

  lemma StepStoreValid(cfg: Config, s: Store, op: StoreOp)
    requires Registered(s)
    ensures Registered(StepStore(cfg, s, op)) && Drift(StepStore(cfg, s, op)) == Drift(s) - SlipOf(cfg, s, op)
  {
    match op {
      case Appending(key, schemaVersion, schema, seqNo, batches, now) =>
        AppendValid(cfg, s, key, schemaVersion, schema, seqNo, batches, now);
      case Sealing(id, now) => SealValid(s, id, now);
      case Spilling(id) => SpillValid(s, id);
      case Enforcing(now) => EnforceValid(cfg, s, now);
      case Naming(id, batch) => NoteBatchIdValid(s, id, batch);
      case Marking(id, snapshot) => MarkCommittedValid(s, id, snapshot);
      case Failing(id, now) => NoteFailureValid(s, id, now);
      case Discarding(id) => DiscardValid(s, id);
      case Reclaiming(cached) => ReclaimValid(s, cached);
      case Observing(create, table) => ObserveValid(s, create, table);
    }
  }

  lemma {:induction false} RunStoreValid(cfg: Config, s: Store, ops: seq<StoreOp>)
    requires Registered(s)
    ensures Registered(RunStore(cfg, s, ops)) && Drift(RunStore(cfg, s, ops)) == Drift(s) - Slips(cfg, s, ops)
    decreases |ops|
  {
    if ops != [] {
      StepStoreValid(cfg, s, ops[0]);
      RunStoreValid(cfg, StepStore(cfg, s, ops[0]), ops[1..]);
    }
  }

  /** After any operations from the empty store, the ledger is short of the resident bytes by exactly what the refused
      appends left behind. */
  lemma LedgerIsShortBySlips(cfg: Config, ops: seq<StoreOp>)
    ensures var s := RunStore(cfg, EmptyStore(), ops); s.used == Held(s.chunks) - Slips(cfg, EmptyStore(), ops)
  {
    EmptyValid();
    RunStoreValid(cfg, EmptyStore(), ops);
  }

  /** So it falls below zero, which a machine word turns into an enormous number, exactly if those bytes are more than
      what is resident. */
  lemma LedgerBelowZeroIff(cfg: Config, ops: seq<StoreOp>)
    ensures var s := RunStore(cfg, EmptyStore(), ops); s.used < 0 <==> Held(s.chunks) < Slips(cfg, EmptyStore(), ops)
  {
    LedgerIsShortBySlips(cfg, ops);
  }

  /** And no key has two open chunks, each open chunk is the one its key names, every batch of a chunk has its schema,
      and a chunk covers exactly the interval around its log positions. */
  lemma RegistryHolds(cfg: Config, ops: seq<StoreOp>, a: nat, b: nat)
    requires var s := RunStore(cfg, EmptyStore(), ops); a in s.chunks && b in s.chunks
    ensures var s := RunStore(cfg, EmptyStore(), ops);
            && (s.chunks[a].state.Open? <==> s.chunks[a].key in s.open && s.open[s.chunks[a].key] == a)
            && (s.chunks[a].state.Open? && s.chunks[b].state.Open? && s.chunks[a].key == s.chunks[b].key ==> a == b)
            && (forall x | x in s.chunks[a].data.batches :: x.schema == s.chunks[a].schema)
            && ChunkModel.Hull(s.chunks[a].log)
  {
    EmptyValid();
    RunStoreValid(cfg, EmptyStore(), ops);
  }

  // ---------------------------------------------------------------- the life of a chunk goes one way

  /** A chunk that is there afterwards is new, or was there with the same key, schema and version, in the same or an
      earlier stage. */
  ghost predicate Onward(s: Store, t: Store) {
    && s.nextId <= t.nextId
    && forall id | id in t.chunks && id <= s.nextId ::
         id in s.chunks && Stage(s.chunks[id].state) <= Stage(t.chunks[id].state)
             && SameMake(s.chunks[id], t.chunks[id])
  }

  predicate SameMake(c: Chunk, d: Chunk) {
    d.id == c.id && d.key == c.key && d.schema == c.schema && d.schemaVersion == c.schemaVersion
        && d.createdAt == c.createdAt
  }

  lemma OnwardTrans(s: Store, t: Store, u: Store)
    requires Onward(s, t) && Onward(t, u)
    ensures Onward(s, u)
  {
  }

  lemma {:induction false} SpillUntilOnward(cfg: Config, s: Store, n: nat)
    ensures Onward(s, SpillUntilNormal(cfg, s, n))
    decreases n
  {
    if n > 0 && PressureOf(cfg, s).NeedsSpill() && OldestSpillable(s, 0).Some? {
      var t := SpillById(s, OldestSpillable(s, 0).value);
      if t.1 {
        SpillUntilOnward(cfg, t.0, n - 1);
        OnwardTrans(s, t.0, SpillUntilNormal(cfg, t.0, n - 1));
      }
    }
  }

  lemma EnforceOnward(cfg: Config, s: Store, now: nat)
    ensures Onward(s, EnforcePressure(cfg, s, now))
  {
    var p := PressureOf(cfg, s);
    if p.NeedsSpill() {
      var t := if p.NeedsForceSeal() then CloseAllOpen(s, p, now) else s;
      SpillUntilOnward(cfg, t, 64);
      OnwardTrans(s, t, SpillUntilNormal(cfg, t, 64));
    }
  }

  lemma {:induction false} ReclaimOnward(s: Store, cached: nat, id: nat)
    ensures Onward(s, ReclaimFrom(s, cached, id))
    decreases s.nextId + 1 - id
  {
    if id <= s.nextId {
      var t := ReclaimOne(s, cached, id);
      ReclaimOnward(t, cached, id + 1);
      OnwardTrans(s, t, ReclaimFrom(t, cached, id + 1));
    }
  }

  lemma ReadyOnward(cfg: Config, s: Store, op: StoreOp)
    requires op.Appending? && Registered(s)
    ensures Onward(s, Ready(cfg, s, op.key, op.schemaVersion, op.schema, op.now))
  {
    var t := CloseOutdated(s, op.key, op.schemaVersion, PressureOf(cfg, s), op.now);
    CloseOutdatedOnward(s, op.key, op.schemaVersion, PressureOf(cfg, s), op.now);
    EnsureOpenOnward(t, op.key, op.schemaVersion, op.schema, op.now);
    OnwardTrans(s, t, Ready(cfg, s, op.key, op.schemaVersion, op.schema, op.now));
  }

  lemma CloseOutdatedOnward(s: Store, key: ChunkKey, schemaVersion: nat, p: Pressure, now: nat)
    requires Registered(s)
    ensures Onward(s, CloseOutdated(s, key, schemaVersion, p, now))
  {
  }

  lemma EnsureOpenOnward(s: Store, key: ChunkKey, schemaVersion: nat, schema: string, now: nat)
    ensures Onward(s, EnsureOpen(s, key, schemaVersion, schema, now))
  {
  }

  lemma DeliverOnward(cfg: Config, t: Store, id: nat, op: StoreOp, pressure: Pressure)
    requires op.Appending? && Registered(t) && id in t.chunks && t.chunks[id].state.Open?
    ensures Onward(t, Deliver(cfg, t, id, op.seqNo, op.batches, pressure, op.now).0)
  {
    var u := Fill(t, id, op.seqNo, op.batches);
    FillOnward(t, id, op.seqNo, op.batches);
    var v := CloseIfDue(cfg, u, id, pressure, op.now);
    CloseOnward(cfg, u, id, pressure, op.now);
    OnwardTrans(t, u, v);
    var added := BytesOf(op.batches);
    ReserveOnward(cfg, v, added);
    OnwardTrans(t, v, Reserve(cfg, v, added));
  }

  lemma FillOnward(t: Store, id: nat, seqNo: nat, batches: seq<Batch>)
    requires Registered(t) && id in t.chunks && t.chunks[id].state.Open?
    ensures Onward(t, Fill(t, id, seqNo, batches)) && Fill(t, id, seqNo, batches).chunks[id].state.Open?
  {
    AppendAllIff(t.chunks[id], seqNo, batches);
  }

  lemma CloseOnward(cfg: Config, u: Store, id: nat, pressure: Pressure, now: nat)
    requires id in u.chunks && u.chunks[id].state.Open?
    ensures Onward(u, CloseIfDue(cfg, u, id, pressure, now))
  {
  }

  lemma ReserveOnward(cfg: Config, s: Store, added: nat)
    ensures Onward(s, Reserve(cfg, s, added))
  {
  }

  lemma AppendOnward(cfg: Config, s: Store, op: StoreOp)
    requires op.Appending? && Registered(s)
    ensures Onward(s, StepStore(cfg, s, op))
  {
    if op.batches != [] && !PressureOf(cfg, s).Reject? {
      var t := Ready(cfg, s, op.key, op.schemaVersion, op.schema, op.now);
      ReadySchema(cfg, s, op.key, op.schemaVersion, op.schema, op.now);
      ReadyOnward(cfg, s, op);
      DeliverOnward(cfg, t, t.open[op.key], op, PressureOf(cfg, s));
      OnwardTrans(s, t, Deliver(cfg, t, t.open[op.key], op.seqNo, op.batches, PressureOf(cfg, s), op.now).0);
    }
  }

  /** The batches of a successful append are in a chunk of their key and schema version, which keeps both from then
      on. */
  lemma AppendGoesToVersion(cfg: Config, s: Store, op: StoreOp, later: seq<StoreOp>)
    requires Registered(s) && op.Appending?
    requires Append(cfg, s, op.key, op.schemaVersion, op.schema, op.seqNo, op.batches, op.now).1.Ok?
    ensures var id := Append(cfg, s, op.key, op.schemaVersion, op.schema, op.seqNo, op.batches, op.now).1.value.id;
            var t := StepStore(cfg, s, op);
            var u := RunStore(cfg, t, later);
            && id in t.chunks && t.chunks[id].key == op.key && t.chunks[id].schemaVersion == op.schemaVersion
            && (id in u.chunks ==> u.chunks[id].key == op.key && u.chunks[id].schemaVersion == op.schemaVersion)
  {
    var t, ready := StepStore(cfg, s, op), Ready(cfg, s, op.key, op.schemaVersion, op.schema, op.now);
    StepStoreValid(cfg, s, op);
    ReadyValid(cfg, s, op.key, op.schemaVersion, op.schema, op.now);
    DeliverKeeps(cfg, ready, ready.open[op.key], op, PressureOf(cfg, s));
    StagesOnlyRise(cfg, t, later);
  }

  lemma DeliverKeeps(cfg: Config, t: Store, id: nat, op: StoreOp, pressure: Pressure)
    requires op.Appending? && Registered(t) && id in t.chunks && t.chunks[id].state.Open?
    ensures var u := Deliver(cfg, t, id, op.seqNo, op.batches, pressure, op.now).0;
            id in u.chunks && SameMake(t.chunks[id], u.chunks[id])
  {
    AppendAllIff(t.chunks[id], op.seqNo, op.batches);
    var v := CloseIfDue(cfg, Fill(t, id, op.seqNo, op.batches), id, pressure, op.now);
    ReserveKeeps(cfg, v, BytesOf(op.batches), id);
  }

  lemma ReserveKeeps(cfg: Config, s: Store, added: nat, id: nat)
    requires id in s.chunks
    ensures id in Reserve(cfg, s, added).chunks && SameMake(s.chunks[id], Reserve(cfg, s, added).chunks[id])
  {
  }

  lemma StepOnward(cfg: Config, s: Store, op: StoreOp)
    requires Registered(s)
    ensures Onward(s, StepStore(cfg, s, op))
  {
    match op {
      case Appending(_, _, _, _, _, _) => AppendOnward(cfg, s, op);
      case Enforcing(now) => EnforceOnward(cfg, s, now);
      case Reclaiming(cached) => ReclaimOnward(s, cached, 0);
      case Marking(id, snapshot) => MarkOnward(s, id, snapshot);
      case Sealing(id, now) => SealOnward(s, id, now);
      case Spilling(id) => SpillOnward(s, id);
      case _ => OthersOnward(cfg, s, op);
    }
  }

  lemma OthersOnward(cfg: Config, s: Store, op: StoreOp)
    requires op.Naming? || op.Failing? || op.Discarding? || op.Observing?
    ensures Onward(s, StepStore(cfg, s, op))
  {
  }

  lemma MarkOnward(s: Store, id: nat, snapshot: nat)
    ensures Onward(s, MarkCommittedById(s, id, snapshot).0)
  {
  }

  lemma SealOnward(s: Store, id: nat, now: nat)
    ensures Onward(s, SealById(s, id, now))
  {
  }

  lemma SpillOnward(s: Store, id: nat)
    ensures Onward(s, SpillById(s, id).0)
  {
  }

  /** Over any run no chunk goes back - open, closed, on disk, flushed, given up - nor changes key, schema or
      version. */
  lemma {:induction false} StagesOnlyRise(cfg: Config, s: Store, ops: seq<StoreOp>)
    requires Registered(s)
    ensures Onward(s, RunStore(cfg, s, ops))
    decreases |ops|
  {
    if ops != [] {
      var t := StepStore(cfg, s, ops[0]);
      StepStoreValid(cfg, s, ops[0]);
      StepOnward(cfg, s, ops[0]);
      StagesOnlyRise(cfg, t, ops[1..]);
      OnwardTrans(s, t, RunStore(cfg, t, ops[1..]));
    }
  }

  // ---------------------------------------------------------------- a ledger below zero

  const KEY := ChunkKey("t", "s", "w", 0)

  function Plain(): Config { Config(100, 100, 1000, 0, 0, 0, (k: ChunkKey) => 0) }

  function Mixed(): seq<Batch> { [Batch("s", [["x"]], 5), Batch("other", [["x"]], 1)] }

  function Partly(): Chunk {
    NewChunk(1, KEY, 0, "s", 0).(data := InMemory([Mixed()[0]]), rows := 1, bytes := 5, log := Coverage([0], 0, 1))
  }

  lemma PartlyTaken()
    ensures StepStore(Plain(), EmptyStore(), Appending(KEY, 0, "s", 0, Mixed(), 0))
            == Store(map[1 := Partly()], map[KEY := 1], map[], map[], 0, 0, 1, 0, 0)
  {
    var c := NewChunk(1, KEY, 0, "s", 0);
    assert Mixed()[1..] == [Mixed()[1]];
    assert [] + [Mixed()[0]] == [Mixed()[0]];
    assert AppendAll(c, 0, Mixed()) == (Partly(), false);
  }

  function SlipThenSpill(): seq<StoreOp> {
    [Appending(KEY, 0, "s", 0, Mixed(), 0)] + ([Sealing(1, 0)] + ([Spilling(1)] + []))
  }

  lemma RunFirst(cfg: Config, s: Store, op: StoreOp, rest: seq<StoreOp>)
    ensures RunStore(cfg, s, [op] + rest) == RunStore(cfg, StepStore(cfg, s, op), rest)
  {
    assert ([op] + rest)[1..] == rest;
  }

  /** One refused append, and its chunk moved to disk: bytes are given back that were never counted. */
  lemma FallsBelowZero()
    ensures RunStore(Plain(), EmptyStore(), SlipThenSpill()).used == -5
  {
    var a := Store(map[1 := Partly()], map[KEY := 1], map[], map[], 0, 0, 1, 0, 0);
    PartlyTaken();
    RunFirst(Plain(), EmptyStore(), Appending(KEY, 0, "s", 0, Mixed(), 0), [Sealing(1, 0)] + ([Spilling(1)] + []));
    RunFirst(Plain(), a, Sealing(1, 0), [Spilling(1)] + []);
    RunFirst(Plain(), SealById(a, 1, 0), Spilling(1), []);
  }
}

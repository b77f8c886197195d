/** What the store does when memory is short: which chunks are closed, which are moved to disk, and when it stops. */
module ChunkRelief {
  import opened CatalogModel
  import opened ChunkModel
  import opened ChunkOps
  import opened ChunkRegistry

  /** The chunks that were in memory and are on disk afterwards. */
  function Moved(s: Store, t: Store): set<nat> {
    set id | id in s.chunks && id in t.chunks && s.chunks[id].data.InMemory? && t.chunks[id].data.OnDisk?
  }

  ghost predicate Numbered(s: Store) {
    forall id | id in s.chunks :: id <= s.nextId
  }

  predicate Spillable(s: Store, id: nat) {
    id in s.chunks && s.chunks[id].NeedsSpill()
  }

  /** Only chunks that could be moved were moved, the oldest ones, and nothing else happened to any chunk. */
  ghost predicate MovedOldest(s: Store, t: Store) {
    && t.chunks.Keys == s.chunks.Keys && t.open == s.open && t.nextId == s.nextId
    && (forall id | id in s.chunks && id !in Moved(s, t) :: t.chunks[id] == s.chunks[id])
    && (forall id | id in Moved(s, t) ::
          Spillable(s, id) && t.chunks[id] == s.chunks[id].(state := Spilled,
              data := OnDisk(s.chunks[id].data.batches)))
    && (forall i: nat, j | Spillable(s, i) && i < j && j in Moved(s, t) :: i in Moved(s, t))
  }

  /** Nothing is left to move, or an empty chunk, which cannot be written, is in the way. */
  predicate Stuck(s: Store) {
    match OldestSpillable(s, 0)
    case None => true
    case Some(id) => id in s.chunks && s.chunks[id].data.batches == []
  }

  lemma {:induction false} OldestIsLeast(s: Store, from: nat)
    requires Numbered(s)
    ensures match OldestSpillable(s, from)
            case None => forall i: nat | Spillable(s, i) :: i < from
            case Some(id) => from <= id && Spillable(s, id) && forall i: nat | Spillable(s, i) :: i < from || id <= i
    decreases s.nextId + 1 - from
  {
    if from <= s.nextId && !(from in s.chunks && s.chunks[from].NeedsSpill()) { OldestIsLeast(s, from + 1); }
  }

  lemma NothingMoved(s: Store)
    ensures Moved(s, s) == {} && MovedOldest(s, s)
  {
  }

  /** One more chunk, older than every one moved after it. */
  lemma MoveOne(s: Store, u: Store, t: Store, id: nat)
    requires Spillable(s, id) && s.chunks[id].data.batches != [] && u == SpillById(s, id).0
    requires MovedOldest(u, t) && forall i: nat | Spillable(s, i) :: id <= i
    ensures id !in Moved(u, t) && Moved(s, t) == Moved(u, t) + {id} && MovedOldest(s, t)
  {
    MovedAlso(s, u, t, id);
  }

  lemma MovedAlso(s: Store, u: Store, t: Store, id: nat)
    requires Spillable(s, id) && s.chunks[id].data.batches != [] && u == SpillById(s, id).0 && MovedOldest(u, t)
    ensures id !in Moved(u, t) && Moved(s, t) == Moved(u, t) + {id}
  {
  }

  /** At most `n` were moved, and fewer only because the pressure is gone or the store is stuck. */
  ghost predicate Relieved(cfg: Config, s: Store, t: Store, n: nat) {
    && MovedOldest(s, t) && |Moved(s, t)| <= n
    && (PressureOf(cfg, t).NeedsSpill() ==> |Moved(s, t)| == n || Stuck(t))
  }

  lemma MoveOneMore(cfg: Config, s: Store, t: Store, id: nat, n: nat)
    requires Spillable(s, id) && s.chunks[id].data.batches != [] && n > 0
    requires Relieved(cfg, SpillById(s, id).0, t, n - 1) && forall i: nat | Spillable(s, i) :: id <= i
    ensures Relieved(cfg, s, t, n)
  {
    MoveOne(s, SpillById(s, id).0, t, id);
  }

  lemma {:induction false} SpillUntilRelieves(cfg: Config, s: Store, n: nat)
    requires Numbered(s)
    ensures Relieved(cfg, s, SpillUntilNormal(cfg, s, n), n)
    decreases n
  {
    if n > 0 && PressureOf(cfg, s).NeedsSpill() && !Stuck(s) {
      var id := MovesOldest(cfg, s, n);
      StillNumbered(s, id);
      SpillUntilRelieves(cfg, SpillById(s, id).0, n - 1);
      MoveOneMore(cfg, s, SpillUntilNormal(cfg, s, n), id, n);
    } else {
      NothingLeft(cfg, s, n);
    }
  }

  lemma StillNumbered(s: Store, id: nat)
    requires Numbered(s)
    ensures Numbered(SpillById(s, id).0)
  {
  }

  lemma NothingLeft(cfg: Config, s: Store, n: nat)
    requires Numbered(s) && (n == 0 || !PressureOf(cfg, s).NeedsSpill() || Stuck(s))
    ensures Relieved(cfg, s, SpillUntilNormal(cfg, s, n), n)
  {
    StaysWhenStuck(cfg, s, n);
    NothingMoved(s);
  }

  lemma MovesOldest(cfg: Config, s: Store, n: nat) returns (id: nat)
    requires Numbered(s) && n > 0 && PressureOf(cfg, s).NeedsSpill() && !Stuck(s)
    ensures Spillable(s, id) && s.chunks[id].data.batches != [] && forall i: nat | Spillable(s, i) :: id <= i
    ensures SpillUntilNormal(cfg, s, n) == SpillUntilNormal(cfg, SpillById(s, id).0, n - 1)
  {
    OldestIsLeast(s, 0);
    id := OldestSpillable(s, 0).value;
  }

  lemma StaysWhenStuck(cfg: Config, s: Store, n: nat)
    requires Numbered(s) && (n == 0 || !PressureOf(cfg, s).NeedsSpill() || Stuck(s))
    ensures SpillUntilNormal(cfg, s, n) == s
  {
    OldestIsLeast(s, 0);
  }

  /** The store as it is when moving starts: from the second step of the ladder on, no chunk stays open. */
  function BeforeMoving(cfg: Config, s: Store, now: nat): Store {
    var p := PressureOf(cfg, s);
    if p.NeedsForceSeal() then CloseAllOpen(s, p, now) else s
  }

  /** Under pressure, the oldest closed chunks go to disk, at most 64, and fewer only when the pressure is gone
      or the store is stuck. Without pressure nothing happens. */
  lemma EnforceRelieves(cfg: Config, s: Store, now: nat)
    requires Registered(s)
    ensures if PressureOf(cfg, s).NeedsSpill()
            then Relieved(cfg, BeforeMoving(cfg, s, now), EnforcePressure(cfg, s, now), 64)
            else EnforcePressure(cfg, s, now) == s
  {
    var p := PressureOf(cfg, s);
    SpillUntilRelieves(cfg, BeforeMoving(cfg, s, now), 64);
  }

  /** Open chunks are closed exactly when the pressure is high, and the seal says why; a key whose chunk was
      closed has no open chunk. */
  lemma EnforceCloses(cfg: Config, s: Store, now: nat, id: nat)
    requires Registered(s) && id in s.chunks && s.chunks[id].state.Open?
    ensures var p, t := PressureOf(cfg, s), EnforcePressure(cfg, s, now);
            && id in t.chunks
            && (t.chunks[id].state.Open? <==> !p.NeedsForceSeal())
            && (p.NeedsForceSeal() ==> t.chunks[id].seal == Some(Seal(now, UnderPressure, Some(p))) && t.open == map[])
            && (!p.NeedsForceSeal() ==> t.chunks[id] == s.chunks[id] && t.open == s.open)
  {
    EnforceRelieves(cfg, s, now);
  }

  /** An empty closed chunk that is the oldest keeps every other chunk in memory. */
  lemma EmptyChunkBlocks(cfg: Config, s: Store, now: nat, id: nat)
    requires Numbered(s) && Spillable(s, id) && s.chunks[id].data.batches == []
    requires forall i: nat | Spillable(s, i) :: id <= i
    requires PressureOf(cfg, s) == Soft
    ensures EnforcePressure(cfg, s, now) == s
  {
    OldestIsLeast(s, 0);
    StaysWhenStuck(cfg, s, 64);
  }

  /** Such a chunk is left by an append that opens it and is then refused its first batch. */
  lemma RefusedAppendLeavesEmptyChunk(cfg: Config, s: Store, key: ChunkKey, schemaVersion: nat, schema: string,
                                      seqNo: nat,
                                      batches: seq<Batch>, now: nat)
    requires Registered(s) && key !in s.open && !PressureOf(cfg, s).Reject?
    requires batches != [] && batches[0].schema != schema
    ensures var (t, r) := Append(cfg, s, key, schemaVersion, schema, seqNo, batches, now);
            && r == Err(SchemaMismatch) && key in t.open && t.open[key] == s.nextId + 1
            && t.chunks == s.chunks[s.nextId + 1 := NewChunk(s.nextId + 1, key, schemaVersion, schema, now)]
  {
  }

  // ---------------------------------------------------------------- a run from the empty store

  const ONE := ChunkKey("t", "one", "w", 0)
  const TWO := ChunkKey("t", "two", "w", 0)

  function Small(): Config { Config(100, 100, 1000, 0, 0, 0, (k: ChunkKey) => 0) }

  function Heavy(): seq<Batch> { [Batch("s", [["x"]], 70)] }

  function Refused(): seq<Batch> { [Batch("other", [["x"]], 1)] }

  function EmptySealed(): Chunk { NewChunk(1, ONE, 0, "s", 0).(state := Sealed, seal := Some(Seal(0, ByHand, None))) }

  function HeavyOpen(): Chunk {
    NewChunk(2, TWO, 0, "s", 0).(data := InMemory(Heavy()), rows := 1, bytes := 70, log := Coverage([1], 1, 2))
  }

  lemma RefusedThenSealed()
    ensures SealById(Append(Small(), EmptyStore(), ONE, 0, "s", 0, Refused(), 0).0, 1, 0)
            == Store(map[1 := EmptySealed()], map[], map[], map[], 0, 1, 1, 0, 0)
  {
    EmptyValid();
    RefusedAppendLeavesEmptyChunk(Small(), EmptyStore(), ONE, 0, "s", 0, Refused(), 0);
  }

  lemma HeavyArrives()
    ensures Append(Small(), Store(map[1 := EmptySealed()], map[], map[], map[], 0, 1, 1, 0, 0), TWO, 0, "s", 1,
            Heavy(), 0).0
            == Store(map[1 := EmptySealed(), 2 := HeavyOpen()], map[TWO := 2], map[], map[], 70, 2, 2, 0, 0)
  {
    assert Heavy()[1..] == [] && Heavy()[..0] == [] && [] + Heavy() == Heavy();
    assert BytesOf(Heavy()) == 70;
  }

  /** A refused append, a row that fills most of the memory, and both chunks closed: from then on, however often the
      store tries to relieve the pressure, it moves nothing, although the second chunk could be moved. */
  lemma BlockedForGood(now: nat)
    ensures var a := SealById(Append(Small(), EmptyStore(), ONE, 0, "s", 0, Refused(), 0).0, 1, 0);
            var s := SealById(Append(Small(), a, TWO, 0, "s", 1, Heavy(), 0).0, 2, 0);
            PressureOf(Small(), s) == Soft && Spillable(s, 2) && s.chunks[2].data.batches != []
                && EnforcePressure(Small(), s, now) == s
  {
    RefusedThenSealed();
    HeavyArrives();
    var s := SealById(Store(map[1 := EmptySealed(), 2 := HeavyOpen()], map[TWO := 2], map[], map[], 70, 2, 2, 0, 0), 2,
        0);
    EmptyChunkBlocks(Small(), s, now, 1);
  }
}

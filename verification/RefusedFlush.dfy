/** Two flushes, one after the other, each declaring the client keys of the interval of its chunk. The answer of the
    catalog is not looked at: the second chunk is marked even if its file was refused, and its rows are in neither
    source. */
module RefusedFlush {
  import opened CatalogModel
  import opened CatalogOps
  import opened ChunkModel
  import opened ChunkOps
  import opened Handoff
  import opened WalLog
  import opened FlushKeys

  /** A chunk that can be flushed, and the request of its flush, which nothing stands against yet. */
  ghost predicate Flush(w: World, log: seq<Record>, id: nat, req: CommitRequest) {
    && id in w.store.chunks && (w.store.chunks[id].state.Sealed? || w.store.chunks[id].state.Spilled?)
        && id !in w.answers
    && var c := w.store.chunks[id];
    && req.table == c.key.table && |req.files| == 1 && req.files[0].deletedAt == 0 && req.batchId != ""
    && Declares(req, KeysIn(log, c.log.start, c.log.end))
    && CommitAccepted(w.cat, req) && !Noted(w.store, req.batchId) && req.batchId !in w.objects
  }

  /** The steps of one flush. */
  function Flushing(id: nat, req: CommitRequest, now: nat): seq<Action> {
    [Note(id, req.batchId), Commit(id, req, now), Mark(id)]
  }

  /** What one flush does. */
  ghost predicate Flushed(w: World, x: World, id: nat, req: CommitRequest, now: nat)
    requires id in w.store.chunks
  {
    && x.cat == Step(w.cat, OpCommitFiles(req, now))
    && x.answers == w.answers[id := Answer(req.batchId, x.cat.data.snapshot, CommitAccepted(w.cat, req))]
    && x.objects == w.objects[req.batchId := w.store.chunks[id].data.batches]
    && x.store.chunks.Keys == w.store.chunks.Keys && x.store.chunks[id].flush.committed == Some(x.cat.data.snapshot)
    && x.store.chunks[id].flush.batchId == Some(req.batchId) && x.store.watermark == w.store.watermark
    && forall j | j in w.store.chunks && j != id :: x.store.chunks[j] == w.store.chunks[j]
  }

  /** The premises of the three steps, without asking whether the catalog will accept. */
  ghost predicate Ready(w: World, id: nat, req: CommitRequest) {
    && id in w.store.chunks && (w.store.chunks[id].state.Sealed? || w.store.chunks[id].state.Spilled?)
        && id !in w.answers
    && req.table == w.store.chunks[id].key.table && |req.files| == 1 && req.files[0].deletedAt == 0
    && req.batchId !in w.cat.data.files && !Noted(w.store, req.batchId) && req.batchId !in w.objects
  }

  lemma StepFirst(cfg: Config, w: World, a: Action, rest: seq<Action>)
    requires Allowed(w, a) && AllAllowed(cfg, Do(cfg, w, a), rest)
    ensures AllAllowed(cfg, w, [a] + rest) && DoAll(cfg, w, [a] + rest) == DoAll(cfg, Do(cfg, w, a), rest)
  {
    assert ([a] + rest)[1..] == rest;
  }

  lemma ThreeSteps(cfg: Config, w: World, a: Action, b: Action, c: Action)
    requires Allowed(w, a) && Allowed(Do(cfg, w, a), b) && Allowed(Do(cfg, Do(cfg, w, a), b), c)
    ensures AllAllowed(cfg, w, [a, b, c]) && DoAll(cfg, w, [a, b, c]) == Do(cfg, Do(cfg, Do(cfg, w, a), b), c)
  {
    var x := Do(cfg, w, a);
    StepFirst(cfg, Do(cfg, x, b), c, []);
    StepFirst(cfg, x, b, [c] + []);
    StepFirst(cfg, w, a, [b] + ([c] + []));
    assert [a, b, c] == [a] + ([b] + ([c] + []));
  }

  lemma NoteFirst(cfg: Config, w: World, id: nat, req: CommitRequest, now: nat)
    requires Ready(w, id, req)
    ensures Allowed(w, Note(id, req.batchId))
    ensures var x := Do(cfg, w, Note(id, req.batchId));
            && x == w.(store := x.store) && Allowed(x, Commit(id, req, now)) && x.store.watermark == w.store.watermark
            && x.store.chunks == w.store.chunks[id :=
                 w.store.chunks[id].(flush := w.store.chunks[id].flush.(batchId := Some(req.batchId)))]
  {
  }

  lemma OneFlush(cfg: Config, w: World, id: nat, req: CommitRequest, now: nat)
    requires Ready(w, id, req)
    ensures AllAllowed(cfg, w, Flushing(id, req, now))
    ensures Flushed(w, DoAll(cfg, w, Flushing(id, req, now)), id, req, now)
  {
    NoteFirst(cfg, w, id, req, now);
    ThreeSteps(cfg, w, Note(id, req.batchId), Commit(id, req, now), Mark(id));
  }

  lemma {:induction false} RunsJoin(cfg: Config, w: World, a: seq<Action>, b: seq<Action>)
    requires AllAllowed(cfg, w, a) && AllAllowed(cfg, DoAll(cfg, w, a), b)
    ensures AllAllowed(cfg, w, a + b) && DoAll(cfg, w, a + b) == DoAll(cfg, DoAll(cfg, w, a), b)
    decreases |a|
  {
    if a == [] {
      assert a + b == b;
    } else {
      assert (a + b)[1..] == a[1..] + b;
      RunsJoin(cfg, Do(cfg, w, a[0]), a[1..], b);
    }
  }

  lemma StillReady(w: World, x: World, log: seq<Record>, i: nat, ra: CommitRequest, j: nat, rb: CommitRequest, now: nat)
    requires Flush(w, log, i, ra) && Flush(w, log, j, rb) && i != j && ra.batchId != rb.batchId
             && Flushed(w, x, i, ra, now)
    ensures Ready(x, j, rb)
  {
  }

  lemma SecondAnswer(w: World, x: World, log: seq<Record>, i: nat, ra: CommitRequest, j: nat, rb: CommitRequest,
                     now: nat)
    requires Flush(w, log, i, ra) && Flush(w, log, j, rb) && i != j && ra.batchId != rb.batchId
             && Flushed(w, x, i, ra, now)
    ensures var a, b := w.store.chunks[i].log, w.store.chunks[j].log;
            CommitAccepted(x.cat, rb) <==> KeysIn(log, a.start, a.end) !! KeysIn(log, b.start, b.end)
  {
    var a, b := w.store.chunks[i].log, w.store.chunks[j].log;
    SecondFlushAcceptedIff(w.cat, log, ra, a.start, a.end, now, rb, b.start, b.end);
  }

  lemma SecondOutcome(cfg: Config, w: World, x: World, log: seq<Record>, i: nat, ra: CommitRequest, j: nat,
                      rb: CommitRequest, now: nat)
    requires Flush(w, log, i, ra) && Flush(w, log, j, rb) && i != j && ra.batchId != rb.batchId
             && Flushed(w, x, i, ra, now)
    ensures AllAllowed(cfg, x, Flushing(j, rb, now))
    ensures var y := DoAll(cfg, x, Flushing(j, rb, now));
            var a, b := w.store.chunks[i].log, w.store.chunks[j].log;
            && InFile(y, i) && y.store.watermark == w.store.watermark
            && (MarkedWithoutFile(y, y.cat.data.snapshot, j)
                <==> !(KeysIn(log, a.start, a.end) !! KeysIn(log, b.start, b.end)))
  {
    StillReady(w, x, log, i, ra, j, rb, now);
    SecondAnswer(w, x, log, i, ra, j, rb, now);
    OneFlush(cfg, x, j, rb, now);
  }

  /** The rows of the second chunk are lost exactly if a row with a client key lies in both intervals. */
  lemma TwoFlushesIff(cfg: Config, w: World, log: seq<Record>, i: nat, ra: CommitRequest, j: nat, rb: CommitRequest,
                      now: nat)
    requires Flush(w, log, i, ra) && Flush(w, log, j, rb) && i != j && ra.batchId != rb.batchId
    ensures AllAllowed(cfg, w, Flushing(i, ra, now) + Flushing(j, rb, now))
    ensures var x := DoAll(cfg, w, Flushing(i, ra, now) + Flushing(j, rb, now));
            var a, b := w.store.chunks[i].log, w.store.chunks[j].log;
            && InFile(x, i) && x.store.watermark == w.store.watermark
            && (MarkedWithoutFile(x, x.cat.data.snapshot, j)
                <==> !(KeysIn(log, a.start, a.end) !! KeysIn(log, b.start, b.end)))
  {
    OneFlush(cfg, w, i, ra, now);
    SecondOutcome(cfg, w, DoAll(cfg, w, Flushing(i, ra, now)), log, i, ra, j, rb, now);
    RunsJoin(cfg, w, Flushing(i, ra, now), Flushing(j, rb, now));
  }

  // ---------------------------------------------------------------- a run from the beginning

  const LEFT := ChunkKey("t", "left", "w", 0)
  const RIGHT := ChunkKey("t", "right", "w", 0)

  function Roomy(): Config { Config(1000, 100, 1000, 0, 0, 0, (k: ChunkKey) => 0) }

  function OneRow(): seq<Batch> { [Batch("s", [["x"]], 1)] }

  function Filled(id: nat, key: ChunkKey, rows: nat, log: Coverage, batches: seq<Batch>): Chunk {
    NewChunk(id, key, 0, "s", 0).(data := InMemory(batches), rows := rows, bytes := rows, log := log)
  }

  lemma OneBatch(c: Chunk, seqNo: nat)
    requires c.state.Open? && c.schema == "s" && c.data.InMemory?
    ensures AppendAll(c, seqNo, OneRow())
            == (c.(rows := c.rows + 1, bytes := c.bytes
                + 1, log := Cover(c.log, seqNo), data := InMemory(c.data.batches + OneRow())), true)
  {
    assert OneRow()[1..] == [];
  }

  lemma OneByte()
    ensures BytesOf(OneRow()) == 1
  {
    assert OneRow()[..0] == [];
  }

  function After1(): Store {
    Store(map[1 := Filled(1, LEFT, 1, Coverage([0], 0, 1), OneRow())], map[LEFT := 1], map[], map[], 1, 1, 1, 0, 0)
  }

  function After2(): Store {
    Store(map[1 := Filled(1, LEFT, 1, Coverage([0], 0, 1), OneRow()),
        2 := Filled(2, RIGHT, 1, Coverage([1], 1, 2), OneRow())],
          map[LEFT := 1, RIGHT := 2], map[], map[], 2, 2, 2, 0, 0)
  }

  function After3(): Store {
    Store(map[1 := Filled(1, LEFT, 2, Coverage([0, 2], 0, 3), OneRow() + OneRow()),
              2 := Filled(2, RIGHT, 1, Coverage([1], 1, 2), OneRow())],
          map[LEFT := 1, RIGHT := 2], map[], map[], 3, 3, 2, 0, 0)
  }

  lemma FirstArrives()
    ensures Append(Roomy(), EmptyStore(), LEFT, 0, "s", 0, OneRow(), 0).0 == After1()
  {
    OneBatch(NewChunk(1, LEFT, 0, "s", 0), 0);
    OneByte();
    assert [] + OneRow() == OneRow();
  }

  lemma SecondArrives()
    ensures Append(Roomy(), After1(), RIGHT, 0, "s", 1, OneRow(), 0).0 == After2()
  {
    assert ChunkOps.Ready(Roomy(), After1(), RIGHT, 0, "s", 0).chunks[2] == NewChunk(2, RIGHT, 0, "s", 0);
    OneBatch(NewChunk(2, RIGHT, 0, "s", 0), 1);
    OneByte();
    assert [] + OneRow() == OneRow();
  }

  lemma ThirdArrives()
    ensures Append(Roomy(), After2(), LEFT, 0, "s", 2, OneRow(), 0).0 == After3()
  {
    OneBatch(Filled(1, LEFT, 1, Coverage([0], 0, 1), OneRow()), 2);
    OneByte();
    assert [0] + [2] == [0, 2];
  }

  function Closed(): Store { SealById(SealById(After3(), 1, 0), 2, 0) }

  ghost predicate TwoClosed(s: Store) {
    && s.chunks.Keys == {1, 2} && s.chunks[1].state.Sealed? && s.chunks[2].state.Sealed?
    && s.chunks[1].key == LEFT && s.chunks[2].key == RIGHT
    && s.chunks[1].log == Coverage([0, 2], 0, 3) && s.chunks[2].log == Coverage([1], 1, 2)
    && s.chunks[1].flush.batchId.None? && s.chunks[2].flush.batchId.None? && s.watermark == 0
  }

  lemma ClosedIs()
    ensures TwoClosed(Closed())
  {
  }

  function Arrivals(): seq<LocalOp> {
    [LAppend(LEFT, 0, "s", 0, OneRow(), 0), LAppend(RIGHT, 0, "s", 1, OneRow(), 0),
        LAppend(LEFT, 0, "s", 2, OneRow(), 0),
     LSeal(1, 0), LSeal(2, 0)]
  }

  function Locally(ops: seq<LocalOp>): seq<Action> {
    if ops == [] then [] else [Local(ops[0])] + Locally(ops[1..])
  }

  function RunLocal(cfg: Config, s: Store, ops: seq<LocalOp>): Store
    decreases |ops|
  {
    if ops == [] then s else RunLocal(cfg, ApplyLocal(cfg, s, ops[0]), ops[1..])
  }

  lemma {:induction false} LocallyRuns(cfg: Config, w: World, ops: seq<LocalOp>)
    requires forall op | op in ops :: op.LAppend? ==> op.key.epoch == 0
    ensures AllAllowed(cfg, w, Locally(ops))
    ensures var x := DoAll(cfg, w, Locally(ops));
            x.store == RunLocal(cfg, w.store, ops) && x.cat == w.cat && x.answers == w.answers && x.objects == w.objects
    decreases |ops|
  {
    if ops != [] {
      assert ops[0] in ops && Allowed(w, Local(ops[0]));
      LocallyRuns(cfg, Do(cfg, w, Local(ops[0])), ops[1..]);
      StepFirst(cfg, w, Local(ops[0]), Locally(ops[1..]));
    }
  }

  lemma RunOne(cfg: Config, s: Store, op: LocalOp, rest: seq<LocalOp>)
    ensures RunLocal(cfg, s, [op] + rest) == RunLocal(cfg, ApplyLocal(cfg, s, op), rest)
  {
    assert ([op] + rest)[1..] == rest;
  }

  lemma RunFive(cfg: Config, s: Store, a: LocalOp, b: LocalOp, c: LocalOp, d: LocalOp, e: LocalOp)
    ensures RunLocal(cfg, s, [a, b, c, d, e])
            == ApplyLocal(cfg, ApplyLocal(cfg, ApplyLocal(cfg, ApplyLocal(cfg, ApplyLocal(cfg, s, a), b), c), d), e)
  {
    var t := ApplyLocal(cfg, ApplyLocal(cfg, s, a), b);
    var u := ApplyLocal(cfg, ApplyLocal(cfg, t, c), d);
    RunOne(cfg, u, e, []);
    RunOne(cfg, ApplyLocal(cfg, t, c), d, [e] + []);
    RunOne(cfg, t, c, [d] + ([e] + []));
    RunOne(cfg, ApplyLocal(cfg, s, a), b, [c] + ([d] + ([e] + [])));
    RunOne(cfg, s, a, [b] + ([c] + ([d] + ([e] + []))));
    assert [a, b, c, d, e] == [a] + ([b] + ([c] + ([d] + ([e] + []))));
  }

  /** Three rows arrive, of two shards in turn, and both chunks are closed. */
  lemma Arrived()
    ensures RunLocal(Roomy(), EmptyStore(), Arrivals()) == Closed()
  {
    FirstArrives();
    SecondArrives();
    ThirdArrives();
    RunFive(Roomy(), EmptyStore(), Arrivals()[0], Arrivals()[1], Arrivals()[2], Arrivals()[3], Arrivals()[4]);
  }

  function Log(): seq<Record> {
    [Rows(Key("t", "left", "w"), ""), Rows(Key("t", "right", "w"), "c"), Rows(Key("t", "left", "w"), "")]
  }

  function Request(batch: string): CommitRequest {
    CommitRequest("t", batch, None, ["c"], "s", "w", [File(batch, batch, "t", "s", "w", 1, 1, 0, "", 0, 0)], 0)
  }

  lemma KeysDeclared()
    ensures KeysIn(Log(), 0, 3) == {"c"} && KeysIn(Log(), 1, 2) == {"c"}
  {
    assert Log()[1].client == "c";
  }

  lemma RequestFits(batch: string)
    requires batch != ""
    ensures CommitAccepted(Initial(), Request(batch)) && Declares(Request(batch), {"c"})
  {
  }

  lemma Ready12(w: World, id: nat, batch: string)
    requires TwoClosed(w.store) && w.cat == Initial() && w.answers == map[] && w.objects == map[]
    requires (id == 1 || id == 2) && batch != ""
    ensures Flush(w, Log(), id, Request(batch))
  {
    KeysDeclared();
    RequestFits(batch);
    assert KeysIn(Log(), w.store.chunks[id].log.start, w.store.chunks[id].log.end) == {"c"};
  }

  /** From the beginning: the one row of the second shard is neither in a local chunk that is shown nor in a file of the
      snapshot, and the read is not flagged. */
  lemma RowLost()
    ensures var actions := Locally(Arrivals()) + (Flushing(1, Request("a"), 0) + Flushing(2, Request("b"), 0));
            AllAllowed(Roomy(), Beginning(), actions) &&
            var x := DoAll(Roomy(), Beginning(), actions);
            var at := x.cat.data.snapshot;
            !Hot(x, "t", at, 2) && !Covered(x, at, 2) && !Stale(x, at)
  {
    LocallyRuns(Roomy(), Beginning(), Arrivals());
    Arrived();
    var w := DoAll(Roomy(), Beginning(), Locally(Arrivals()));
    ClosedIs();
    Ready12(w, 1, "a");
    Ready12(w, 2, "b");
    KeysDeclared();
    TwoFlushesIff(Roomy(), w, Log(), 1, Request("a"), 2, Request("b"), 0);
    RunsJoin(Roomy(), Beginning(), Locally(Arrivals()), Flushing(1, Request("a"), 0) + Flushing(2, Request("b"), 0));
    RunSound(Roomy(), Beginning(), Locally(Arrivals()) + (Flushing(1, Request("a"), 0) + Flushing(2, Request("b"), 0)));
    NotShown(DoAll(Roomy(), w, Flushing(1, Request("a"), 0) + Flushing(2, Request("b"), 0)), "t", 2);
  }

  lemma NotShown(x: World, table: string, id: nat)
    requires Linked(x) && MarkedWithoutFile(x, x.cat.data.snapshot, id)
    ensures !Hot(x, table, x.cat.data.snapshot, id) && !Covered(x, x.cat.data.snapshot, id)
  {
    if id in x.store.chunks { assert ChunkOk(x, id); }
  }
}

/** From local chunks to committed files: at every instant and for every snapshot, a reader that combines the
    files visible at the snapshot with the local chunks gets the rows of each live chunk exactly once. */
module Handoff {
  import opened CatalogModel
  import opened CatalogOps
  import opened Evolution
  import opened ChunkModel
  import opened ChunkOps
  import opened ChunkRegistry
  import opened ChunkFrames

  /** What the catalog said to the commit of a chunk: whether its file entered, and the snapshot after. */
  datatype Answer = Answer(batch: string, snapshot: nat, accepted: bool)

  /** `answers` remembers the commit of each chunk that was tried, `objects` what was written under each batch, `rows`
      the key and content of every chunk there ever was. */
  datatype World = World(
    store: Store, cat: State, answers: map<nat, Answer>, objects: map<string, seq<Batch>>,
    rows: map<nat, (ChunkKey, seq<Batch>)>)

  datatype LocalOp =
    | LAppend(key: ChunkKey, schemaVersion: nat, schema: string, seqNo: nat, batches: seq<Batch>, now: nat)
    | LSeal(id: nat, now: nat)
    | LSpill(id: nat)
    | LEnforce(now: nat)
    | LFailure(id: nat, now: nat)

  function ApplyLocal(cfg: Config, s: Store, op: LocalOp): Store {
    match op
    case LAppend(key, schemaVersion, schema, seqNo, batches, now) =>
      Append(cfg, s, key, schemaVersion, schema, seqNo, batches, now).0
    case LSeal(id, now) => SealById(s, id, now)
    case LSpill(id) => SpillById(s, id).0
    case LEnforce(now) => EnforcePressure(cfg, s, now)
    case LFailure(id, now) => NoteFailureById(s, id, now)
  }

  datatype Action =
    | Local(step: LocalOp)
    | Ddl(create: bool, table: string)
    | Note(id: nat, batch: string)             // the batch is named before the file is committed
    | Commit(id: nat, req: CommitRequest, now: nat)
    | Mark(id: nat)                            // the store takes the commit for done, whatever the answer was
    | Drop(id: nat)                            // a chunk of a past era is discarded instead of flushed
    | GiveUpCopies(cached: nat)
    | Elsewhere(op: Op)

  function Recorded(rows: map<nat, (ChunkKey, seq<Batch>)>, chunks: map<nat, Chunk>): map<nat, (ChunkKey, seq<Batch>)> {
    rows + map id | id in chunks :: (chunks[id].key, chunks[id].data.batches)
  }

  predicate Noted(s: Store, batch: string) {
    exists id :: id in s.chunks && s.chunks[id].flush.batchId == Some(batch)
  }

  /** The premises, in the order of the actions: rows arrive for the present epoch of their table; a chunk has one
      batch that is not known to have failed, under a new name; its commit carries its content and may be refused for
      its client keys; it is marked with the snapshot of the answer; copies are given up for snapshots that exist; and
      nobody else uses the name of a chunk's batch. */
  ghost predicate Allowed(w: World, a: Action) {
    match a
    case Local(op) => op.LAppend? ==> op.key.epoch <= LivenessOf(w.store, op.key.table).epoch
    case Ddl(_, _) => true
    case Note(id, b) =>
      && id in w.store.chunks && !w.store.chunks[id].state.Open? && id !in w.answers
      && b !in w.cat.data.files && !Noted(w.store, b) && b !in w.objects
    case Commit(id, req, _) =>
      && id in w.store.chunks && !w.store.chunks[id].state.Open? && id !in w.answers
      && w.store.chunks[id].flush.batchId == Some(req.batchId) && req.table == w.store.chunks[id].key.table
      && |req.files| == 1 && req.files[0].deletedAt == 0
    case Mark(id) => id in w.answers
    case Drop(id) => id in w.store.chunks && !Current(w.store, w.store.chunks[id].key)
    case GiveUpCopies(cached) => cached <= w.cat.data.snapshot
    case Elsewhere(op) =>
      && WellFormed(op) && !op.OpDropTable? && Overwritten(w.cat.data.files, op) == {}
      && forall b | b in Step(w.cat, op).data.files && b !in w.cat.data.files :: !Noted(w.store, b)
  }

  function DoLocal(w: World, t: Store): World {
    w.(store := t, rows := Recorded(w.rows, t.chunks))
  }

  ghost function DoCommit(w: World, id: nat, req: CommitRequest, now: nat): World
    requires id in w.store.chunks
  {
    var cat := Step(w.cat, OpCommitFiles(req, now));
    w.(cat := cat, answers := w.answers[id := Answer(req.batchId, cat.data.snapshot, CommitAccepted(w.cat, req))],
       objects := w.objects[req.batchId := w.store.chunks[id].data.batches])
  }

  function DoMark(w: World, id: nat): World
    requires id in w.answers
  {
    w.(store := MarkCommittedById(w.store, id, w.answers[id].snapshot).0)
  }

  ghost function Do(cfg: Config, w: World, a: Action): World
    requires Allowed(w, a)
  {
    match a
    case Local(op) => DoLocal(w, ApplyLocal(cfg, w.store, op))
    case Ddl(create, table) => w.(store := Observe(w.store, create, table))
    case Note(id, b) => w.(store := NoteBatchId(w.store, id, b))
    case Commit(id, req, now) => DoCommit(w, id, req, now)
    case Mark(id) => DoMark(w, id)
    case Drop(id) => w.(store := Discard(w.store, id).0)
    case GiveUpCopies(cached) => w.(store := Reclaim(w.store, cached))
    case Elsewhere(op) => w.(cat := Step(w.cat, op))
  }

  // ---------------------------------------------------------------- the invariant

  ghost predicate AnswerOk(w: World, id: nat)
    requires id in w.answers
  {
    var Answer(b, n, accepted) := w.answers[id];
    && id in w.rows && n <= w.cat.data.snapshot && b in w.objects && w.objects[b] == w.rows[id].1
    && (accepted ==>
          b in w.cat.data.files && w.cat.data.files[b].validFrom == n
          && w.cat.data.files[b].table == w.rows[id].0.table)
  }

  predicate InFile(w: World, id: nat) {
    id in w.answers && w.answers[id].accepted
  }

  ghost predicate ChunkOk(w: World, id: nat)
    requires id in w.store.chunks
  {
    var c := w.store.chunks[id];
    && id in w.rows && w.rows[id] == (c.key, c.data.batches)
    && (c.flush.committed.Some? ==> id in w.answers && w.answers[id].snapshot == c.flush.committed.value)
    && (id in w.answers ==> !c.state.Open? && c.flush.batchId == Some(w.answers[id].batch))
    && (!InFile(w, id) && c.flush.batchId.Some? ==> c.flush.batchId.value !in w.cat.data.files)
    && (id !in w.answers && c.flush.batchId.Some? ==> c.flush.batchId.value !in w.objects)
  }

  /** A chunk without a local copy is of a past era, or was marked with a snapshot below the watermark. */
  ghost predicate GoneOk(w: World, id: nat)
    requires id in w.rows
  {
    id !in w.store.chunks && Current(w.store, w.rows[id].0) ==>
      id in w.answers && w.answers[id].snapshot <= w.store.watermark
  }

  ghost predicate NamesDistinct(w: World) {
    && (forall i, j | InFile(w, i) && InFile(w, j) && i != j :: w.answers[i].batch != w.answers[j].batch)
    && (forall i, j | i in w.store.chunks && j in w.store.chunks && i != j && w.store.chunks[i].flush.batchId.Some? ::
          w.store.chunks[i].flush.batchId != w.store.chunks[j].flush.batchId)
  }

  ghost predicate Linked(w: World) {
    && ValidData(w.cat.data)
    && (forall id | id in w.rows ::
          id <= w.store.nextId && w.rows[id].0.epoch <= LivenessOf(w.store, w.rows[id].0.table).epoch)
    && (forall id | id in w.store.chunks :: ChunkOk(w, id))
    && (forall id | id in w.answers :: AnswerOk(w, id))
    && (forall id | id in w.rows :: GoneOk(w, id))
    && NamesDistinct(w)
  }

  // ---------------------------------------------------------------- the theorem about one instant

  function SeenBatches(w: World, table: string, at: nat): set<string> {
    (VisibleFiles(w.cat.data, table, at)).Keys
  }

  predicate Hot(w: World, table: string, at: nat, id: nat) {
    id in VisibleChunks(w.store, table, at, SeenBatches(w, table, at))
  }

  /** The file of the chunk belongs to the snapshot, or its rows were rewritten or removed by something that does. */
  predicate Covered(w: World, at: nat, id: nat) {
    InFile(w, id) && w.answers[id].snapshot <= at
  }

  predicate Stale(w: World, at: nat) {
    w.store.watermark > at
  }

  /** The file was replaced or removed at or before `at` although the store has not been told of its commit. */
  predicate ReplacedUnmarked(w: World, at: nat, id: nat) {
    && Covered(w, at, id) && id in w.store.chunks && w.store.chunks[id].flush.committed.None?
    && w.answers[id].batch in w.cat.data.files
    && 0 < w.cat.data.files[w.answers[id].batch].deletedAt <= at
  }

  /** The chunk was marked with a snapshot that the reader has reached, although its file was refused. */
  predicate MarkedWithoutFile(w: World, at: nat, id: nat) {
    && id in w.answers && !w.answers[id].accepted && w.answers[id].snapshot <= at
    && (id in w.store.chunks ==> w.store.chunks[id].flush.committed.Some?)
  }

  /** A read that is not flagged stale finds each live chunk exactly once, among the local chunks or through its file,
      if and only if its file was not replaced before the store learned of its commit, and it was not marked after its
      file was refused. */
  lemma ReadOnceIff(w: World, table: string, at: nat, id: nat)
    requires Linked(w) && Registered(w.store) && at <= w.cat.data.snapshot && !Stale(w, at)
    requires id in w.rows && w.rows[id].0.table == table && Current(w.store, w.rows[id].0)
    ensures (Hot(w, table, at, id) <==> !Covered(w, at, id))
            <==> !ReplacedUnmarked(w, at, id) && !MarkedWithoutFile(w, at, id)
  {
    assert GoneOk(w, id);
    if id in w.store.chunks {
      assert ChunkOk(w, id);
      if id in w.answers { assert AnswerOk(w, id); }
    }
  }

  /** What the two sources deliver: the chunk's own rows, in the one case from memory or local disk, in the
      other from the file written under its batch, which no other chunk shares. */
  lemma SourcesDeliver(w: World, table: string, at: nat, id: nat)
    requires Linked(w) && Registered(w.store) && id in w.rows
    ensures Hot(w, table, at, id) ==> w.store.chunks[id].data.batches == w.rows[id].1
    ensures Covered(w, at, id) ==>
              var b := w.answers[id].batch;
              && b in w.objects && w.objects[b] == w.rows[id].1
              && (w.rows[id].0.table == table && w.cat.data.files[b].ProtectedAt(at) ==> b in SeenBatches(w, table, at))
              && forall j | InFile(w, j) && w.answers[j].batch == b :: j == id
  {
    if id in w.answers { assert AnswerOk(w, id); }
    if id in w.store.chunks { assert ChunkOk(w, id); }
  }

  // ---------------------------------------------------------------- every action keeps the invariant

  lemma LocalChunkOk(w: World, t: Store, keys: set<ChunkKey>, id: nat)
    requires Linked(w) && Extends(w.store, t, keys) && id in t.chunks
    ensures ChunkOk(DoLocal(w, t), id)
  {
    if id in w.store.chunks {
      assert ChunkOk(w, id) && SameProgress(w.store.chunks[id], t.chunks[id]);
    } else {
      NotYetAnswered(w, id);
    }
  }

  lemma NotYetAnswered(w: World, id: nat)
    requires Linked(w) && id > w.store.nextId
    ensures id !in w.answers
  {
    assert id in w.answers ==> AnswerOk(w, id);
  }

  lemma LocalAnswerOk(w: World, t: Store, keys: set<ChunkKey>, id: nat)
    requires Linked(w) && Extends(w.store, t, keys) && id in w.answers
    ensures AnswerOk(DoLocal(w, t), id)
  {
    assert AnswerOk(w, id);
    if id in w.store.chunks { assert ChunkOk(w, id) && SameProgress(w.store.chunks[id], t.chunks[id]); }
  }

  lemma LocalGoneOk(w: World, t: Store, keys: set<ChunkKey>, id: nat)
    requires Linked(w) && Extends(w.store, t, keys) && id in DoLocal(w, t).rows
    requires forall k | k in keys :: k.epoch <= LivenessOf(w.store, k.table).epoch
    ensures GoneOk(DoLocal(w, t), id)
    ensures id <= t.nextId && var k := DoLocal(w, t).rows[id].0; k.epoch <= LivenessOf(t, k.table).epoch
  {
    if id in w.rows { assert GoneOk(w, id); }
    if id in w.store.chunks { assert ChunkOk(w, id) && SameProgress(w.store.chunks[id], t.chunks[id]); }
  }

  lemma LocalLinked(w: World, t: Store, keys: set<ChunkKey>)
    requires Linked(w) && Extends(w.store, t, keys)
    requires forall k | k in keys :: k.epoch <= LivenessOf(w.store, k.table).epoch
    ensures Linked(DoLocal(w, t))
  {
    var x := DoLocal(w, t);
    forall id | id in t.chunks ensures ChunkOk(x, id) { LocalChunkOk(w, t, keys, id); }
    forall id | id in w.answers ensures AnswerOk(x, id) { LocalAnswerOk(w, t, keys, id); }
    forall id | id in x.rows
      ensures GoneOk(x, id) && id <= t.nextId && x.rows[id].0.epoch <= LivenessOf(t, x.rows[id].0.table).epoch
    {
      LocalGoneOk(w, t, keys, id);
    }
    LocalNames(w, t, keys);
  }

  lemma LocalNames(w: World, t: Store, keys: set<ChunkKey>)
    requires NamesDistinct(w) && Extends(w.store, t, keys)
    ensures NamesDistinct(DoLocal(w, t))
  {
    forall i, j | i in t.chunks && j in t.chunks && i != j && t.chunks[i].flush.batchId.Some?
      ensures t.chunks[i].flush.batchId != t.chunks[j].flush.batchId
    {
      assert i in w.store.chunks && SameProgress(w.store.chunks[i], t.chunks[i]);
      if j in w.store.chunks { assert SameProgress(w.store.chunks[j], t.chunks[j]); }
    }
  }

  lemma ApplyLocalExtends(cfg: Config, s: Store, op: LocalOp)
    requires Registered(s)
    ensures Extends(s, ApplyLocal(cfg, s, op), if op.LAppend? then {op.key} else {})
  {
    match op {
      case LAppend(key, schemaVersion, schema, seqNo, batches, now) =>
        AppendExtends(cfg, s, key, schemaVersion, schema, seqNo, batches, now);
      case LSeal(id, now) => SealExtends(s, id, now);
      case LSpill(id) => SpillExtends(s, id, {});
      case LEnforce(now) => EnforceExtends(cfg, s, now);
      case LFailure(id, now) => FailureExtends(s, id, now);
    }
  }

  lemma DdlLinked(w: World, create: bool, table: string)
    requires Linked(w)
    ensures Linked(w.(store := Observe(w.store, create, table)))
  {
    var t := Observe(w.store, create, table);
    var x := w.(store := t);
    forall id | id in t.chunks ensures ChunkOk(x, id) {
      assert ChunkOk(w, id);
    }
    forall id | id in x.answers ensures AnswerOk(x, id) {
      assert AnswerOk(w, id);
    }
    forall id | id in x.rows ensures GoneOk(x, id) {
      assert GoneOk(w, id);
    }
  }

  /** One chunk gets new flush data that fit the catalog. */
  lemma RevisedLinked(w: World, t: Store, id: nat)
    requires Linked(w) && id in w.store.chunks && id in t.chunks && t.chunks == w.store.chunks[id := t.chunks[id]]
    requires t.liveness == w.store.liveness && t.watermark == w.store.watermark && t.nextId == w.store.nextId
    requires ChunkOk(w.(store := t), id)
    requires t.chunks[id].flush.batchId.Some? ==>
               forall j | j in w.store.chunks && j != id
                   :: w.store.chunks[j].flush.batchId != t.chunks[id].flush.batchId
    ensures Linked(w.(store := t))
  {
    var x := w.(store := t);
    forall i | i in x.store.chunks ensures ChunkOk(x, i) {
      if i != id { UntouchedChunkOk(w, t, i); }
    }
    forall i | i in x.answers ensures AnswerOk(x, i) {
      assert AnswerOk(w, i);
    }
    forall i | i in x.rows ensures GoneOk(x, i) { RevisedGoneOk(w, t, i); }
    RevisedNames(w, t, id);
  }

  lemma RevisedGoneOk(w: World, t: Store, id: nat)
    requires id in w.rows && GoneOk(w, id) && t.chunks.Keys == w.store.chunks.Keys
    requires t.liveness == w.store.liveness && t.watermark == w.store.watermark
    ensures GoneOk(w.(store := t), id)
  {
  }

  lemma UntouchedChunkOk(w: World, t: Store, i: nat)
    requires Linked(w) && i in w.store.chunks && i in t.chunks && t.chunks[i] == w.store.chunks[i]
    ensures ChunkOk(w.(store := t), i)
  {
    assert ChunkOk(w, i);
  }

  lemma RevisedNames(w: World, t: Store, id: nat)
    requires NamesDistinct(w) && id in w.store.chunks && id in t.chunks
             && t.chunks == w.store.chunks[id := t.chunks[id]]
    requires t.chunks[id].flush.batchId.Some? ==>
               forall j | j in w.store.chunks && j != id
                   :: w.store.chunks[j].flush.batchId != t.chunks[id].flush.batchId
    ensures NamesDistinct(w.(store := t))
  {
  }

  lemma NoteLinked(w: World, id: nat, b: string)
    requires Linked(w) && Allowed(w, Note(id, b))
    ensures Linked(w.(store := NoteBatchId(w.store, id, b)))
  {
    assert ChunkOk(w, id);
    RevisedLinked(w, NoteBatchId(w.store, id, b), id);
  }

  lemma MarkLinked(w: World, id: nat)
    requires Linked(w) && id in w.answers
    ensures Linked(DoMark(w, id))
  {
    if id in w.store.chunks && MarkCommitted(w.store.chunks[id], w.answers[id].snapshot).Ok? {
      assert ChunkOk(w, id);
      RevisedLinked(w, MarkCommittedById(w.store, id, w.answers[id].snapshot).0, id);
    }
  }

  /** The era of a discarded chunk does not come back, so nobody misses it. */
  lemma DropLinked(w: World, id: nat)
    requires Linked(w) && Allowed(w, Drop(id))
    ensures Linked(w.(store := Discard(w.store, id).0))
  {
    var x := w.(store := Discard(w.store, id).0);
    assert ChunkOk(w, id);
    forall i | i in x.store.chunks ensures ChunkOk(x, i) {
      assert ChunkOk(w, i);
    }
    forall i | i in x.answers ensures AnswerOk(x, i) {
      assert AnswerOk(w, i);
    }
    forall i | i in x.rows ensures GoneOk(x, i) {
      assert GoneOk(w, i);
    }
  }

  lemma GiveUpLinked(w: World, cached: nat)
    requires Linked(w) && Registered(w.store)
    ensures Linked(w.(store := Reclaim(w.store, cached)))
  {
    var x := w.(store := Reclaim(w.store, cached));
    ReclaimSpec(w.store, cached);
    ReclaimKeepsIds(w.store, cached, 0);
    forall i | i in x.store.chunks ensures ChunkOk(x, i) { FewerChunkOk(w, x, i); }
    forall i | i in x.answers ensures AnswerOk(x, i) {
      assert AnswerOk(w, i);
    }
    forall i | i in x.rows ensures GoneOk(x, i) { GiveUpGoneOk(w, cached, i); }
    FewerNames(w, x);
  }

  lemma FewerChunkOk(w: World, x: World, id: nat)
    requires x == w.(store := x.store) && id in x.store.chunks && id in w.store.chunks && ChunkOk(w, id)
    requires x.store.chunks[id] == w.store.chunks[id]
    ensures ChunkOk(x, id)
  {
  }

  lemma FewerNames(w: World, x: World)
    requires x == w.(store := x.store) && x.store.chunks.Keys <= w.store.chunks.Keys && NamesDistinct(w)
    requires forall i | i in x.store.chunks :: x.store.chunks[i] == w.store.chunks[i]
    ensures NamesDistinct(x)
  {
    assert forall i | InFile(x, i) :: InFile(w, i);
  }

  lemma GiveUpGoneOk(w: World, cached: nat, id: nat)
    requires Registered(w.store) && id in w.rows && GoneOk(w, id) && (id in w.store.chunks ==> ChunkOk(w, id))
    ensures GoneOk(w.(store := Reclaim(w.store, cached)), id)
  {
    ReclaimSpec(w.store, cached);
  }

  lemma {:induction false} ReclaimKeepsIds(s: Store, cached: nat, id: nat)
    ensures ReclaimFrom(s, cached, id).nextId == s.nextId
    decreases s.nextId + 1 - id
  {
    if id <= s.nextId {
      ReclaimKeepsIds(if id in s.chunks && Reclaimable(s, s.chunks[id], cached) then GiveUp(s, id) else s, cached,
                      id + 1);
    }
  }

  lemma ElsewhereLinked(w: World, op: Op)
    requires Linked(w) && Allowed(w, Elsewhere(op))
    ensures Linked(w.(cat := Step(w.cat, op)))
  {
    var x := w.(cat := Step(w.cat, op));
    StepAdvances(w.cat, op);
    DataStepValid(w.cat, op);
    CatalogLinked(w, x, op);
  }

  lemma CatalogLinked(w: World, x: World, op: Op)
    requires Linked(w) && x == w.(cat := x.cat) && ValidData(x.cat.data)
    requires FilesAdvance(w.cat.data, x.cat.data, {}, WellFormed(op))
    requires forall b | b in x.cat.data.files && b !in w.cat.data.files :: !Noted(w.store, b)
    ensures Linked(x)
  {
    forall i | i in x.store.chunks ensures ChunkOk(x, i) {
      assert ChunkOk(w, i);
    }
    forall i | i in x.answers ensures AnswerOk(x, i) { CatalogAnswerOk(w, x, op, i); }
    forall i | i in x.rows ensures GoneOk(x, i) {
      assert GoneOk(w, i);
    }
  }

  lemma CatalogAnswerOk(w: World, x: World, op: Op, i: nat)
    requires i in w.answers && AnswerOk(w, i) && x == w.(cat := x.cat)
    requires FilesAdvance(w.cat.data, x.cat.data, {}, WellFormed(op))
    ensures AnswerOk(x, i)
  {
    var d, e, b := w.cat.data, x.cat.data, w.answers[i].batch;
    if w.answers[i].accepted {
      assert FileAdvances(d.files[b], e.files[b], b, d.snapshot, e.snapshot, false, WellFormed(op));
    }
  }

  /** What the answer to the commit of chunk `id` under its batch changes. */
  ghost predicate Answers(w: World, x: World, id: nat, req: CommitRequest, accepted: bool) {
    && id in w.store.chunks && !w.store.chunks[id].state.Open? && id !in w.answers
    && w.store.chunks[id].flush.batchId == Some(req.batchId) && req.batchId !in w.cat.data.files
    && req.table == w.store.chunks[id].key.table && |req.files| == 1 && req.files[0].deletedAt == 0
    && x.store == w.store && x.rows == w.rows
    && x.cat.data == (if accepted then DataCommit(w.cat.data, req) else w.cat.data)
    && x.answers == w.answers[id := Answer(req.batchId, x.cat.data.snapshot, accepted)]
    && x.objects == w.objects[req.batchId := w.store.chunks[id].data.batches]
  }

  lemma CommitNames(w: World, x: World, id: nat, req: CommitRequest, accepted: bool)
    requires Linked(w) && Answers(w, x, id, req, accepted)
    ensures NamesDistinct(x)
  {
    forall i, j | InFile(x, i) && InFile(x, j) && i != j ensures x.answers[i].batch != x.answers[j].batch {
      if i != id { assert AnswerOk(w, i); }
      if j != id { assert AnswerOk(w, j); }
    }
  }

  lemma CommitChunkOk(w: World, x: World, id: nat, req: CommitRequest, accepted: bool, i: nat)
    requires Linked(w) && Answers(w, x, id, req, accepted) && i in x.store.chunks
    ensures ChunkOk(x, i)
  {
    assert ChunkOk(w, i);
    assert i != id && i !in w.answers ==> w.store.chunks[i].flush.batchId != w.store.chunks[id].flush.batchId;
  }

  lemma CommitAnswerOk(w: World, x: World, id: nat, req: CommitRequest, accepted: bool, i: nat)
    requires Linked(w) && Answers(w, x, id, req, accepted) && i in x.answers
    requires i != id ==> w.answers[i].batch != req.batchId
    ensures AnswerOk(x, i)
  {
    assert ChunkOk(w, id);
    if i != id { assert AnswerOk(w, i); }
  }

  lemma AnsweredLinked(w: World, x: World, id: nat, req: CommitRequest, accepted: bool)
    requires Linked(w) && Answers(w, x, id, req, accepted) && ValidData(x.cat.data)
    requires forall i | i in w.answers :: w.answers[i].batch != req.batchId
    ensures Linked(x)
  {
    forall i | i in x.store.chunks ensures ChunkOk(x, i) { CommitChunkOk(w, x, id, req, accepted, i); }
    forall i | i in x.answers ensures AnswerOk(x, i) { CommitAnswerOk(w, x, id, req, accepted, i); }
    forall i | i in x.rows ensures GoneOk(x, i) { assert GoneOk(w, i); }
    CommitNames(w, x, id, req, accepted);
  }

  lemma CommitLinked(w: World, id: nat, req: CommitRequest, now: nat)
    requires Linked(w) && Allowed(w, Commit(id, req, now))
    ensures Linked(DoCommit(w, id, req, now))
  {
    assert ChunkOk(w, id);
    forall i | i in w.answers ensures w.answers[i].batch != req.batchId { assert AnswerOk(w, i); }
    DataStepValid(w.cat, OpCommitFiles(req, now));
    AnsweredLinked(w, DoCommit(w, id, req, now), id, req, CommitAccepted(w.cat, req));
  }

  lemma LocalActionLinked(cfg: Config, w: World, op: LocalOp)
    requires Linked(w) && Registered(w.store) && Allowed(w, Local(op))
    ensures Linked(DoLocal(w, ApplyLocal(cfg, w.store, op)))
  {
    ApplyLocalExtends(cfg, w.store, op);
    LocalLinked(w, ApplyLocal(cfg, w.store, op), if op.LAppend? then {op.key} else {});
  }

  lemma DoLinked(cfg: Config, w: World, a: Action)
    requires Linked(w) && Registered(w.store) && Allowed(w, a)
    ensures Linked(Do(cfg, w, a))
  {
    match a {
      case Local(op) => LocalActionLinked(cfg, w, op);
      case Ddl(create, table) => DdlLinked(w, create, table);
      case Note(id, b) => NoteLinked(w, id, b);
      case Commit(id, req, now) => CommitLinked(w, id, req, now);
      case Mark(id) => MarkLinked(w, id);
      case Drop(id) => DropLinked(w, id);
      case GiveUpCopies(cached) => GiveUpLinked(w, cached);
      case Elsewhere(op) => ElsewhereLinked(w, op);
    }
  }

  // ---------------------------------------------------------------- whole runs

  lemma LocalRegistered(cfg: Config, s: Store, op: LocalOp)
    requires Registered(s)
    ensures Registered(ApplyLocal(cfg, s, op))
  {
    match op {
      case LAppend(key, schemaVersion, schema, seqNo, batches, now) =>
        AppendValid(cfg, s, key, schemaVersion, schema, seqNo, batches, now);
      case LSeal(id, now) => SealValid(s, id, now);
      case LSpill(id) => SpillValid(s, id);
      case LEnforce(now) => EnforceValid(cfg, s, now);
      case LFailure(id, now) => NoteFailureValid(s, id, now);
    }
  }

  lemma DoRegistered(cfg: Config, w: World, a: Action)
    requires Registered(w.store) && Allowed(w, a)
    ensures Registered(Do(cfg, w, a).store)
  {
    match a {
      case Local(op) => LocalRegistered(cfg, w.store, op);
      case Ddl(create, table) => ObserveValid(w.store, create, table);
      case Note(id, b) => NoteBatchIdValid(w.store, id, b);
      case Commit(_, _, _) =>
      case Mark(id) => MarkCommittedValid(w.store, id, w.answers[id].snapshot);
      case Drop(id) => DiscardValid(w.store, id);
      case GiveUpCopies(cached) => ReclaimValid(w.store, cached);
      case Elsewhere(_) =>
    }
  }

  ghost predicate AllAllowed(cfg: Config, w: World, actions: seq<Action>)
    decreases |actions|
  {
    actions == [] || (Allowed(w, actions[0]) && AllAllowed(cfg, Do(cfg, w, actions[0]), actions[1..]))
  }

  ghost function DoAll(cfg: Config, w: World, actions: seq<Action>): World
    requires AllAllowed(cfg, w, actions)
    decreases |actions|
  {
    if actions == [] then w else DoAll(cfg, Do(cfg, w, actions[0]), actions[1..])
  }

  ghost predicate Sound(w: World) {
    Linked(w) && Registered(w.store)
  }

  lemma {:induction false} RunSound(cfg: Config, w: World, actions: seq<Action>)
    requires Sound(w) && AllAllowed(cfg, w, actions)
    ensures Sound(DoAll(cfg, w, actions))
    decreases |actions|
  {
    if actions != [] {
      DoLinked(cfg, w, actions[0]);
      DoRegistered(cfg, w, actions[0]);
      RunSound(cfg, Do(cfg, w, actions[0]), actions[1..]);
    }
  }

  function Beginning(): World {
    World(EmptyStore(), Initial(), map[], map[], map[])
  }

  /** After any interleaving, for every snapshot there has been: unless it is flagged stale, a read finds each live
      chunk exactly once, if and only if its file was not replaced before the store learned of its commit, and it was
      not marked after its file was refused. */
  lemma HandoffExactlyOnce(cfg: Config, actions: seq<Action>, table: string, at: nat, id: nat)
    requires AllAllowed(cfg, Beginning(), actions)
    ensures var w := DoAll(cfg, Beginning(), actions);
            at <= w.cat.data.snapshot && !Stale(w, at) && id in w.rows && w.rows[id].0.table == table
            && Current(w.store, w.rows[id].0)
            ==> ((Hot(w, table, at, id) <==> !Covered(w, at, id))
                <==> !ReplacedUnmarked(w, at, id) && !MarkedWithoutFile(w, at, id))
  {
    var w := DoAll(cfg, Beginning(), actions);
    RunSound(cfg, Beginning(), actions);
    if at <= w.cat.data.snapshot && !Stale(w, at) && id in w.rows && w.rows[id].0.table == table
       && Current(w.store, w.rows[id].0)
    {
      ReadOnceIff(w, table, at, id);
    }
  }
}

/** The chunk of rows that a node holds before they become a file, and the states it goes through. */
module ChunkModel {
  import opened Common
  import opened CatalogModel

  const MINUTE: nat := 60_000
  const MAX_SHIFT: nat := 7
  const MAX_BACKOFF_MS: nat := 30_000

  datatype ChunkState = Open | Sealed | Spilled | Flushed | Released

  predicate CanTransition(a: ChunkState, b: ChunkState) {
    match (a, b)
    case (Open, Spilled) => true
    case (Open, Sealed) => true
    case (Sealed, Spilled) => true
    case (Sealed, Flushed) => true
    case (Spilled, Flushed) => true
    case (Flushed, Released) => true
    case _ => false
  }

  datatype SealReason = RowsReached | BytesReached | WindowClosed | SchemaEvolved | ResidentCap | UnderPressure | ByHand

  datatype Pressure = Normal | Soft | Hard | Reject
  {
    predicate NeedsSpill() { !Normal? }

    predicate NeedsForceSeal() { Hard? || Reject? }
  }

  /** The ladder 0.60, 0.80, 0.95 over the ratio of used to allowed bytes. No budget at all is full as soon as it is
      used. */
  function Classify(used: int, limit: nat): Pressure {
    if limit == 0 then if used == 0 then Normal else Reject
    else if used * 100 >= limit * 95 then Reject
    else if used * 100 >= limit * 80 then Hard
    else if used * 100 >= limit * 60 then Soft
    else Normal
  }

  /** `bytes` is what the batch takes in memory. */
  datatype Batch = Batch(schema: string, rows: seq<seq<string>>, bytes: nat)

  /** In memory, or in a file on local disk with the same content. */
  datatype ChunkData = InMemory(batches: seq<Batch>) | OnDisk(batches: seq<Batch>)

  datatype ChunkKey = ChunkKey(table: string, shard: string, window: string, epoch: nat)

  datatype Seal = Seal(at: nat, reason: SealReason, pressure: Option<Pressure>)

  /** The covered log positions, in arrival order, and the half-open interval around them. */
  datatype Coverage = Coverage(seqs: seq<nat>, start: nat, end: nat)

  datatype Progress = Progress(committed: Option<nat>, batchId: Option<string>, attempts: nat, retryAfter: nat)

  datatype Chunk = Chunk(
    id: nat, key: ChunkKey, schemaVersion: nat, schema: string, state: ChunkState, data: ChunkData,
    rows: nat, bytes: nat, createdAt: nat, windowEnd: nat, seal: Option<Seal>, log: Coverage, flush: Progress)
  {
    predicate HoldsData() { !state.Released? }

    /** Uncommitted data is always visible; committed data until the reader's snapshot has reached the commit. */
    predicate VisibleTo(snapshot: nat) {
      HoldsData() && (flush.committed.Some? ==> snapshot < flush.committed.value)
    }

    predicate NeedsSpill() { state.Sealed? && data.InMemory? }

    predicate InBackoff(now: nat) { now < flush.retryAfter }
  }

  function WindowStart(t: nat): nat {
    t / MINUTE * MINUTE
  }

  function NewChunk(id: nat, key: ChunkKey, schemaVersion: nat, schema: string, now: nat): Chunk {
    Chunk(id, key, schemaVersion, schema, Open, InMemory([]), 0, 0, now, WindowStart(now) + MINUTE, None,
          Coverage([], 0, 0), Progress(None, None, 0, 0))
  }

  function Cover(c: Coverage, seqNo: nat): Coverage {
    if c.seqs == [] then Coverage([seqNo], seqNo, seqNo + 1)
    else Coverage(c.seqs + [seqNo], Min(c.start, seqNo), Max(c.end, seqNo + 1))
  }

  function AppendBatch(c: Chunk, seqNo: nat, b: Batch): Result<Chunk> {
    if !c.state.Open? || b.schema != c.schema || c.data.OnDisk? then Err(InvalidState)
    else Ok(c.(rows := c.rows + |b.rows|, bytes := c.bytes + b.bytes, log := Cover(c.log, seqNo),
               data := InMemory(c.data.batches + [b])))
  }

  /** Appends batch after batch; the batches before the first refused one stay. */
  function AppendAll(c: Chunk, seqNo: nat, batches: seq<Batch>): (Chunk, bool)
    decreases |batches|
  {
    if batches == [] then (c, true)
    else match AppendBatch(c, seqNo, batches[0])
      case Err(_) => (c, false)
      case Ok(d) => AppendAll(d, seqNo, batches[1..])
  }

  function MarkCommitted(c: Chunk, snapshot: nat): Result<Chunk> {
    if c.state.Flushed? || CanTransition(c.state, Flushed)
    then Ok(c.(state := Flushed, flush := c.flush.(committed := Some(snapshot), attempts := 0, retryAfter := 0)))
    else Err(InvalidState)
  }

  function Power2(n: nat): nat {
    if n == 0 then 1 else 2 * Power2(n - 1)
  }

  function Backoff(attempts: nat): nat {
    Min(200 * Power2(Min(attempts, MAX_SHIFT)), MAX_BACKOFF_MS)
  }

  function NoteFailure(c: Chunk, now: nat): Chunk {
    var n := if c.flush.attempts < 0xFFFF_FFFF then c.flush.attempts + 1 else c.flush.attempts;
    c.(flush := c.flush.(attempts := n, retryAfter := now + Backoff(n)))
  }

  // ---------------------------------------------------------------- the invariant of a chunk

  function RowsOf(batches: seq<Batch>): seq<seq<string>> {
    if batches == [] then [] else RowsOf(batches[..|batches| - 1]) + batches[|batches| - 1].rows
  }

  function BytesOf(batches: seq<Batch>): nat {
    if batches == [] then 0 else BytesOf(batches[..|batches| - 1]) + batches[|batches| - 1].bytes
  }

  /** `start..end` is the smallest interval around the covered positions. */
  ghost predicate Hull(c: Coverage) {
    && (c.seqs == [] ==> c.start == c.end == 0)
    && (c.seqs != [] ==> c.start in c.seqs && c.end >= 1 && c.end - 1 in c.seqs)
    && (forall s | s in c.seqs :: c.start <= s < c.end)
  }

  ghost predicate ValidChunk(c: Chunk) {
    && (forall b | b in c.data.batches :: b.schema == c.schema)
    && c.rows == |RowsOf(c.data.batches)| && c.bytes == BytesOf(c.data.batches)
    && |c.log.seqs| == |c.data.batches| && Hull(c.log)
    && (c.state.Open? || c.state.Sealed? ==> c.data.InMemory?) && (c.state.Spilled? ==> c.data.OnDisk?)
    && !c.state.Released?
    && (c.state.Open? <==> c.seal.None?)
    && (c.state.Flushed? <==> c.flush.committed.Some?)
    && c.windowEnd == WindowStart(c.createdAt) + MINUTE
  }

  lemma NewChunkValid(id: nat, key: ChunkKey, schemaVersion: nat, schema: string, now: nat)
    ensures ValidChunk(NewChunk(id, key, schemaVersion, schema, now))
  {
  }

  lemma CoverHull(c: Coverage, seqNo: nat)
    requires Hull(c)
    ensures Hull(Cover(c, seqNo))
  {
    var d := Cover(c, seqNo);
    if c.seqs != [] {
      assert seqNo in [seqNo];
      forall s | s in d.seqs ensures d.start <= s < d.end {
        assert s in c.seqs || s == seqNo;
      }
      assert c.start in c.seqs && c.end - 1 in c.seqs;
    }
  }

  lemma AppendBatchValid(c: Chunk, seqNo: nat, b: Batch)
    requires ValidChunk(c) && AppendBatch(c, seqNo, b).Ok?
    ensures ValidChunk(AppendBatch(c, seqNo, b).value)
  {
    var all := c.data.batches + [b];
    assert all[..|all| - 1] == c.data.batches;
    CoverHull(c.log, seqNo);
  }

  /** Nothing but the content and what is counted from it differs. */
  ghost predicate Grown(c: Chunk, d: Chunk) {
    d == c.(rows := d.rows, bytes := d.bytes, log := d.log, data := d.data)
  }

  /** Appending succeeds exactly if the chunk is open and every batch has its schema. */
  lemma {:induction false} AppendAllIff(c: Chunk, seqNo: nat, batches: seq<Batch>)
    requires ValidChunk(c)
    ensures var (d, ok) := AppendAll(c, seqNo, batches);
            && ValidChunk(d) && Grown(c, d)
            && (ok <==> batches == [] || (c.state.Open? && forall b | b in batches :: b.schema == c.schema))
    decreases |batches|
  {
    if batches != [] {
      match AppendBatch(c, seqNo, batches[0]) {
        case Err(_) =>
          assert batches[0] in batches;
        case Ok(d) =>
          AppendBatchValid(c, seqNo, batches[0]);
          AppendAllIff(d, seqNo, batches[1..]);
          assert batches == [batches[0]] + batches[1..];
      }
    }
  }

  /** How many of the batches are accepted before the first refused one. */
  function Accepted(c: Chunk, batches: seq<Batch>): (n: nat)
    ensures n <= |batches|
  {
    if batches == [] || !c.state.Open? || c.data.OnDisk? || batches[0].schema != c.schema then 0
    else 1 + Accepted(c, batches[1..])
  }

  lemma AcceptedSame(c: Chunk, d: Chunk, batches: seq<Batch>)
    requires d.state == c.state && d.schema == c.schema && (d.data.OnDisk? <==> c.data.OnDisk?)
    ensures Accepted(d, batches) == Accepted(c, batches)
  {
  }

  /** It keeps the accepted batches, which are all of them if it succeeds. */
  lemma {:induction false} AppendAllContent(c: Chunk, seqNo: nat, batches: seq<Batch>)
    ensures var n := Accepted(c, batches);
            && (AppendAll(c, seqNo, batches).1 <==> n == |batches|)
            && AppendAll(c, seqNo, batches).0.data.batches == c.data.batches + batches[..n]
            && AppendAll(c, seqNo, batches).0.bytes == c.bytes + BytesOf(batches[..n])
    decreases |batches|
  {
    if batches == [] || AppendBatch(c, seqNo, batches[0]).Err? {
      assert c.data.batches + batches[..0] == c.data.batches;
    } else {
      var d, rest := AppendBatch(c, seqNo, batches[0]).value, batches[1..];
      var n := Accepted(d, rest);
      AcceptedSame(c, d, rest);
      AppendAllContent(d, seqNo, rest);
      BytesPrepend(batches[0], rest[..n]);
      PrependPrefix(c.data.batches, batches, n);
    }
  }

  lemma PrependPrefix(before: seq<Batch>, batches: seq<Batch>, n: nat)
    requires n < |batches|
    ensures [batches[0]] + batches[1..][..n] == batches[..n + 1]
    ensures before + [batches[0]] + batches[1..][..n] == before + batches[..n + 1]
  {
  }

  lemma {:induction false} BytesPrepend(b: Batch, rest: seq<Batch>)
    ensures BytesOf([b] + rest) == b.bytes + BytesOf(rest)
    decreases |rest|
  {
    var all := [b] + rest;
    if rest == [] {
      assert all[..0] == [];
    } else {
      assert all[..|all| - 1] == [b] + rest[..|rest| - 1];
      BytesPrepend(b, rest[..|rest| - 1]);
    }
  }

  /** No legal change of state leads back, so a chunk is sealed once, flushed once and released once. */
  function Stage(s: ChunkState): nat {
    match s
    case Open => 0
    case Sealed => 1
    case Spilled => 2
    case Flushed => 3
    case Released => 4
  }

  lemma BackoffBounds(attempts: nat)
    requires attempts > 0
    ensures 400 <= Backoff(attempts) <= MAX_BACKOFF_MS
    ensures Backoff(attempts) <= Backoff(attempts + 1)
  {
    assert Power2(1) == 2 && Power2(2) == 4 && Power2(3) == 8 && Power2(4) == 16;
    assert Power2(5) == 32 && Power2(6) == 64 && Power2(7) == 128;
  }
}

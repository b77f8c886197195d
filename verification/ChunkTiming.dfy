/** When chunks are closed and flushed: one chunk per key and arrival minute, and a bound on how long data stays. */
module ChunkTiming {
  import opened Common
  import opened CatalogModel
  import opened ChunkModel
  import opened ChunkOps
  import opened ChunkRegistry
  import opened ChunkFrames

  // ---------------------------------------------------------------- executing a plan

  /** The plan closes what is due. */
  function Closed(cfg: Config, p: Pressure, c: Chunk, now: nat): Chunk {
    if SealDue(cfg, c, now) then c.(state := Sealed, seal := Some(Seal(now, SealReasonOf(cfg, c, now), Some(p)))) else c
  }

  /** Flushing leaves a chunk committed at a snapshot, or in backoff. */
  function Attempted(c: Chunk, now: nat, outcome: Option<nat>): Chunk {
    match outcome
    case None => NoteFailure(c, now)
    case Some(n) => if MarkCommitted(c, n).Ok? then MarkCommitted(c, n).value else c
  }

  function TickChunk(cfg: Config, p: Pressure, c: Chunk, now: nat, outcome: Option<nat>): Chunk {
    if FlushDue(cfg, p, c, now) then Attempted(Closed(cfg, p, c, now), now, outcome) else Closed(cfg, p, c, now)
  }

  function OutcomeOf(outcomes: map<nat, nat>, id: nat): Option<nat> {
    if id in outcomes then Some(outcomes[id]) else None
  }

  /** Instead of being flushed, a chunk of a past era is discarded. */
  predicate Expired(cfg: Config, s: Store, id: nat, now: nat)
    requires id in s.chunks
  {
    FlushDue(cfg, PressureOf(cfg, s), s.chunks[id], now) && !Current(s, s.chunks[id].key)
  }

  /** Close, then flush: `outcomes` says which flushes succeed, and at which snapshot. */
  function Tick(cfg: Config, s: Store, now: nat, outcomes: map<nat, nat>): Store {
    var p := PressureOf(cfg, s);
    s.(chunks := map id | id in s.chunks && !Expired(cfg, s, id, now)
        :: TickChunk(cfg, p, s.chunks[id], now, OutcomeOf(outcomes, id)),
       open := map k | k in s.open && !(s.open[k] in s.chunks && SealDue(cfg, s.chunks[s.open[k]], now)) :: s.open[k])
  }

  // ---------------------------------------------------------------- nothing stays too long

  lemma TickChunkBoundsAge(cfg: Config, p: Pressure, c: Chunk, now: nat, outcome: Option<nat>)
    requires ValidChunk(c)
    ensures var d := TickChunk(cfg, p, c, now, outcome);
            d.state.Flushed? || d.InBackoff(now) || SatSub(now, d.createdAt) < cfg.maxResident
  {
    FailureBacksOff(Closed(cfg, p, c, now), now);
  }

  /** After a tick, every chunk that is left and not flushed is in backoff or younger than the cap. */
  lemma TickBoundsAge(cfg: Config, s: Store, now: nat, outcomes: map<nat, nat>, id: nat)
    requires Registered(s) && id in Tick(cfg, s, now, outcomes).chunks
    ensures var c := Tick(cfg, s, now, outcomes).chunks[id];
            c.state.Flushed? || c.InBackoff(now) || SatSub(now, c.createdAt) < cfg.maxResident
  {
    TickChunkBoundsAge(cfg, PressureOf(cfg, s), s.chunks[id], now, OutcomeOf(outcomes, id));
  }

  /** A chunk whose flush fails is tried again at the earliest after 0.4 s and at the latest after 30 s. */
  lemma RetryWithinBounds(cfg: Config, s: Store, now: nat, outcomes: map<nat, nat>, id: nat)
    requires Registered(s) && id in Tick(cfg, s, now, outcomes).chunks && id !in outcomes
    requires FlushDue(cfg, PressureOf(cfg, s), s.chunks[id], now)
    ensures now + 400 <= Tick(cfg, s, now, outcomes).chunks[id].flush.retryAfter <= now + MAX_BACKOFF_MS
  {
    BackoffBounds(Tick(cfg, s, now, outcomes).chunks[id].flush.attempts);
  }

  lemma FailureBacksOff(c: Chunk, now: nat)
    ensures NoteFailure(c, now).InBackoff(now)
  {
    BackoffPositive(NoteFailure(c, now).flush.attempts);
  }

  lemma BackoffPositive(n: nat)
    ensures Backoff(n) > 0
  {
    Power2Positive(Min(n, MAX_SHIFT));
  }

  lemma {:induction false} Power2Positive(n: nat)
    ensures Power2(n) > 0
  {
    if n > 0 { Power2Positive(n - 1); }
  }

  // ---------------------------------------------------------------- pressure only adds flushes

  function Level(p: Pressure): nat {
    match p
    case Normal => 0
    case Soft => 1
    case Hard => 2
    case Reject => 3
  }

  /** More pressure never takes a chunk out of the flush plan, and what it adds are chunks already closed. */
  lemma PressureEnlarges(cfg: Config, low: Pressure, high: Pressure, c: Chunk, now: nat)
    requires Level(low) <= Level(high)
    ensures FlushDue(cfg, low, c, now) ==> FlushDue(cfg, high, c, now)
    ensures FlushDue(cfg, high, c, now) && !FlushDue(cfg, low, c, now)
            ==> low.Normal? && Flushable(c) && !PhaseDue(cfg, c, now)
  {
  }

  lemma MoreUsedMorePressure(a: int, b: int, limit: nat)
    requires 0 <= a <= b
    ensures Level(Classify(a, limit)) <= Level(Classify(b, limit))
  {
  }

  /** Of two stores that differ only in how much memory is used, the fuller one flushes all that the other flushes,
      closes the same chunks, and discards all that the other discards. */
  lemma FullerFlushesMore(cfg: Config, s: Store, t: Store, now: nat, outcomes: map<nat, nat>, id: nat)
    requires Registered(s) && t == s.(used := t.used) && 0 <= s.used <= t.used && id in s.chunks
    ensures var a, b := Tick(cfg, s, now, outcomes), Tick(cfg, t, now, outcomes);
            && a.open == b.open && (id in b.chunks ==> id in a.chunks)
            && (id in b.chunks && a.chunks[id].state.Flushed? ==> b.chunks[id].state.Flushed?)
            && (id in b.chunks && b.chunks[id].state.Flushed? && !a.chunks[id].state.Flushed? ==>
                  PressureOf(cfg, s).Normal? && Flushable(s.chunks[id]) && !PhaseDue(cfg, s.chunks[id], now))
  {
    var c, p, q := s.chunks[id], PressureOf(cfg, s), PressureOf(cfg, t);
    MoreUsedMorePressure(s.used, t.used, cfg.limit);
    PressureEnlarges(cfg, p, q, c, now);
    assert Current(s, c.key) == Current(t, c.key);
    FlushedIff(cfg, p, c, now, OutcomeOf(outcomes, id));
    FlushedIff(cfg, q, c, now, OutcomeOf(outcomes, id));
  }

  lemma FlushedIff(cfg: Config, p: Pressure, c: Chunk, now: nat, outcome: Option<nat>)
    requires ValidChunk(c)
    ensures TickChunk(cfg, p, c, now, outcome).state.Flushed?
            <==> c.state.Flushed? || (FlushDue(cfg, p, c, now) && outcome.Some?)
  {
  }

  // ---------------------------------------------------------------- one chunk per arrival minute

  datatype Timed =
    | TAppend(key: ChunkKey, schemaVersion: nat, schema: string, seqNo: nat, batches: seq<Batch>, now: nat)
    | TTick(now: nat, outcomes: map<nat, nat>)
    | TOther(after: Store)    // anything that leaves the open chunks alone

  ghost predicate OpenUntouched(s: Store, t: Store) {
    Registered(t) && t.open == s.open && t.nextId == s.nextId
    && forall k | k in s.open :: s.open[k] in s.chunks ==> t.chunks[s.open[k]] == s.chunks[s.open[k]]
  }

  /** The size thresholds are not reached and the schema does not change. */
  ghost predicate Calm(cfg: Config, s: Store, op: Timed) {
    match op
    case TAppend(key, schemaVersion, schema, seqNo, batches, now) =>
      && !Outdated(s, key, schemaVersion)
      && var t := Ready(cfg, s, key, schemaVersion, schema, now);
         t.open[key] in t.chunks ==>
           var c := AppendAll(t.chunks[t.open[key]], seqNo, batches).0;
           c.rows < cfg.rowsThreshold && c.bytes < cfg.bytesThreshold
    case TTick(now, _) => forall id | id in s.chunks && s.chunks[id].state.Open? ::
        s.chunks[id].rows < cfg.rowsThreshold && s.chunks[id].bytes < cfg.bytesThreshold
    case TOther(t) => OpenUntouched(s, t)
  }

  function Perform(cfg: Config, s: Store, op: Timed): Store {
    match op
    case TAppend(key, schemaVersion, schema, seqNo, batches, now) =>
      Append(cfg, s, key, schemaVersion, schema, seqNo, batches, now).0
    case TTick(now, outcomes) => Tick(cfg, s, now, outcomes)
    case TOther(t) => t
  }

  function Clock(op: Timed, clock: nat): nat {
    if op.TOther? then clock else op.now
  }

  /** The creation times of the chunks of each key, in order. */
  type History = map<ChunkKey, seq<nat>>

  function Times(h: History, key: ChunkKey): seq<nat> {
    if key in h then h[key] else []
  }

  function Log(h: History, s: Store, t: Store, op: Timed): History {
    if op.TAppend? && t.nextId > s.nextId then h[op.key := Times(h, op.key) + [op.now]] else h
  }

  ghost predicate RisingMinutes(times: seq<nat>) {
    forall i, j | 0 <= i < j < |times| :: WindowStart(times[i]) < WindowStart(times[j])
  }

  /** The last chunk of a key is the open one, or its minute is over. */
  ghost predicate Told(h: History, s: Store, clock: nat) {
    && (forall k | k in h :: h[k] != [] && RisingMinutes(h[k]))
    && (forall k | k in s.open :: k in h && s.open[k] in s.chunks && s.chunks[s.open[k]].createdAt == h[k][|h[k]| - 1])
    && (forall k | k in h && k !in s.open :: WindowStart(h[k][|h[k]| - 1]) + MINUTE <= clock)
  }

  lemma WindowContains(t: nat)
    ensures WindowStart(t) <= t < WindowStart(t) + MINUTE
  {
  }

  lemma WindowMonotone(t: nat, n: nat)
    requires WindowStart(n) + MINUTE <= t
    ensures WindowStart(n) < WindowStart(t)
  {
    var a, b := n / MINUTE, t / MINUTE;
    if b <= a { WindowContains(t); }
  }

  /** Without size seals, a chunk that is closed by time is closed after its minute. */
  lemma ClosedAfterWindow(cfg: Config, c: Chunk, now: nat)
    requires ValidChunk(c) && c.rows < cfg.rowsThreshold && c.bytes < cfg.bytesThreshold && cfg.maxResident >= MINUTE
    requires SealDue(cfg, c, now) || ShouldSeal(cfg, c, now).Some?
    ensures WindowStart(c.createdAt) + MINUTE <= now
  {
    WindowContains(c.createdAt);
  }

  lemma Extended(times: seq<nat>, now: nat)
    requires RisingMinutes(times) && (times != [] ==> WindowStart(times[|times| - 1]) + MINUTE <= now)
    ensures RisingMinutes(times + [now])
  {
    var all := times + [now];
    forall i, j | 0 <= i < j < |all| ensures WindowStart(all[i]) < WindowStart(all[j]) {
      if j == |times| {
        WindowMonotone(now, times[|times| - 1]);
        assert i < |times| - 1 ==> WindowStart(times[i]) < WindowStart(times[|times| - 1]);
      }
    }
  }

  // ---- ticks

  lemma ClosedValid(cfg: Config, p: Pressure, c: Chunk, now: nat)
    requires ValidChunk(c)
    ensures ValidChunk(Closed(cfg, p, c, now)) && Closed(cfg, p, c, now).createdAt == c.createdAt
    ensures Closed(cfg, p, c, now).id == c.id && Closed(cfg, p, c, now).key == c.key
    ensures Closed(cfg, p, c, now).state.Open? <==> c.state.Open? && !SealDue(cfg, c, now)
  {
    if SealDue(cfg, c, now) { ClosedChunkValid(c, SealReasonOf(cfg, c, now), Some(p), now); }
  }

  lemma AttemptedValid(c: Chunk, now: nat, outcome: Option<nat>)
    requires ValidChunk(c)
    ensures var d := Attempted(c, now, outcome);
            && ValidChunk(d) && d.id == c.id && d.key == c.key && d.createdAt == c.createdAt
            && (d.state.Open? <==> c.state.Open?)
  {
  }

  lemma TickChunkValid(cfg: Config, p: Pressure, c: Chunk, now: nat, outcome: Option<nat>)
    requires ValidChunk(c)
    ensures var d := TickChunk(cfg, p, c, now, outcome);
            && ValidChunk(d) && d.id == c.id && d.key == c.key && d.createdAt == c.createdAt
            && (d.state.Open? <==> c.state.Open? && !SealDue(cfg, c, now))
  {
    ClosedValid(cfg, p, c, now);
    AttemptedValid(Closed(cfg, p, c, now), now, outcome);
  }

  lemma TickRegistered(cfg: Config, s: Store, now: nat, outcomes: map<nat, nat>)
    requires Registered(s)
    ensures Registered(Tick(cfg, s, now, outcomes))
    ensures forall id | id in Tick(cfg, s, now, outcomes).chunks ::
              Tick(cfg, s, now, outcomes).chunks[id].createdAt == s.chunks[id].createdAt
  {
    var t := Tick(cfg, s, now, outcomes);
    forall id | id in t.chunks
      ensures ValidChunk(t.chunks[id]) && t.chunks[id].id == id && t.chunks[id].key == s.chunks[id].key
      ensures t.chunks[id].createdAt == s.chunks[id].createdAt
      ensures t.chunks[id].state.Open? <==> s.chunks[id].state.Open? && !SealDue(cfg, s.chunks[id], now)
    {
      TickChunkValid(cfg, PressureOf(cfg, s), s.chunks[id], now, OutcomeOf(outcomes, id));
    }
  }

  lemma TickTold(cfg: Config, h: History, s: Store, now: nat, outcomes: map<nat, nat>, clock: nat)
    requires Registered(s) && Told(h, s, clock) && clock <= now && cfg.maxResident >= MINUTE
    requires Calm(cfg, s, TTick(now, outcomes))
    ensures Told(h, Tick(cfg, s, now, outcomes), now)
  {
    var t := Tick(cfg, s, now, outcomes);
    TickRegistered(cfg, s, now, outcomes);
    forall k | k in h && k !in t.open ensures WindowStart(h[k][|h[k]| - 1]) + MINUTE <= now {
      if k in s.open { ClosedAfterWindow(cfg, s.chunks[s.open[k]], now); }
    }
  }

  // ---- appends

  lemma OpenedTold(h: History, s: Store, c: Chunk, clock: nat, now: nat)
    requires c.id !in s.chunks && Told(h, s, clock) && clock <= now && c.key !in s.open && c.createdAt == now
    ensures Told(h[c.key := Times(h, c.key) + [now]],
                 s.(nextId := c.id, open := s.open[c.key := c.id], chunks := s.chunks[c.id := c]), now)
  {
    Extended(Times(h, c.key), now);
  }

  lemma ReadyTold(cfg: Config, h: History, s: Store, op: Timed, clock: nat)
    requires op.TAppend? && Registered(s) && Told(h, s, clock) && clock <= op.now
             && !Outdated(s, op.key, op.schemaVersion)
    ensures var t := Ready(cfg, s, op.key, op.schemaVersion, op.schema, op.now);
            && Registered(t) && op.key in t.open
            && Told(Log(h, s, t, op), t, op.now)
  {
    ReadyValid(cfg, s, op.key, op.schemaVersion, op.schema, op.now);
    ReadyIs(cfg, s, op);
    if op.key !in s.open {
      OpenedTold(h, s, Opened(s, op), clock, op.now);
    } else {
      LaterTold(h, s, clock, op.now);
    }
  }

  function Opened(s: Store, op: Timed): Chunk
    requires op.TAppend?
  {
    NewChunk(s.nextId + 1, op.key, op.schemaVersion, op.schema, op.now)
  }

  /** Unless a chunk of an older schema has to be closed, an append uses the open chunk or opens one. */
  lemma ReadyIs(cfg: Config, s: Store, op: Timed)
    requires op.TAppend? && Registered(s) && !Outdated(s, op.key, op.schemaVersion)
    ensures var c := Opened(s, op);
            && c.id !in s.chunks
            && Ready(cfg, s, op.key, op.schemaVersion, op.schema, op.now)
               == if op.key in s.open then s
                  else s.(nextId := c.id, open := s.open[c.key := c.id], chunks := s.chunks[c.id := c])
  {
  }

  lemma LaterTold(h: History, s: Store, clock: nat, now: nat)
    requires Told(h, s, clock) && clock <= now
    ensures Told(h, s, now)
  {
  }

  lemma DeliverOpen(cfg: Config, r: Store, id: nat, seqNo: nat, batches: seq<Batch>, key: ChunkKey, p: Pressure,
                    now: nat)
    requires Registered(r) && key in r.open && id == r.open[key]
    ensures var t := Deliver(cfg, r, id, seqNo, batches, p, now).0;
            && Extends(r, t, {key}) && t.nextId == r.nextId
            && (t.open == r.open || (t.open == r.open - {key} && DueClose(cfg, r, id, seqNo, batches, now).Some?))
  {
    AppendAllKeeps(r.chunks[id], seqNo, batches);
    DeliverExtends(cfg, r, id, seqNo, batches, p, now, {key});
    ReserveOpen(cfg, CloseIfDue(cfg, Fill(r, id, seqNo, batches), id, p, now), BytesOf(batches));
  }

  /** What appending does to the open chunks besides filling one. */
  lemma AppendOpen(cfg: Config, s: Store, op: Timed)
    requires op.TAppend? && Registered(s) && op.batches != [] && !PressureOf(cfg, s).Reject?
    ensures var r := Ready(cfg, s, op.key, op.schemaVersion, op.schema, op.now);
            var t := Perform(cfg, s, op);
            && Registered(r) && op.key in r.open && Extends(r, t, {op.key}) && t.nextId == r.nextId
            && (t.open == r.open || (t.open == r.open - {op.key}
                  && DueClose(cfg, r, r.open[op.key], op.seqNo, op.batches, op.now).Some?))
  {
    var r := Ready(cfg, s, op.key, op.schemaVersion, op.schema, op.now);
    ReadyValid(cfg, s, op.key, op.schemaVersion, op.schema, op.now);
    DeliverOpen(cfg, r, r.open[op.key], op.seqNo, op.batches, op.key, PressureOf(cfg, s), op.now);
  }

  lemma ReserveOpen(cfg: Config, s: Store, added: nat)
    ensures Reserve(cfg, s, added).open == s.open && Reserve(cfg, s, added).nextId == s.nextId
  {
  }

  lemma FilledTold(cfg: Config, h: History, r: Store, t: Store, key: ChunkKey, now: nat)
    requires Registered(r) && Told(h, r, now) && key in r.open && Extends(r, t, {key})
    requires t.open == r.open || (t.open == r.open - {key}
             && WindowStart(r.chunks[r.open[key]].createdAt) + MINUTE <= now)
    ensures Told(h, t, now)
  {
    forall k | k in t.open ensures k in h && t.open[k] in t.chunks
        && t.chunks[t.open[k]].createdAt == h[k][|h[k]| - 1] {
      assert SameProgress(r.chunks[r.open[k]], t.chunks[r.open[k]]);
    }
  }

  lemma DueAfterWindow(cfg: Config, s: Store, op: Timed)
    requires op.TAppend? && Calm(cfg, s, op) && cfg.maxResident >= MINUTE
    requires var r := Ready(cfg, s, op.key, op.schemaVersion, op.schema, op.now); Registered(r) && op.key in r.open
    ensures var r := Ready(cfg, s, op.key, op.schemaVersion, op.schema, op.now);
            DueClose(cfg, r, r.open[op.key], op.seqNo, op.batches, op.now).Some?
            ==> WindowStart(r.chunks[r.open[op.key]].createdAt) + MINUTE <= op.now
  {
    var r := Ready(cfg, s, op.key, op.schemaVersion, op.schema, op.now);
    var c := AppendAll(r.chunks[r.open[op.key]], op.seqNo, op.batches).0;
    AppendAllIff(r.chunks[r.open[op.key]], op.seqNo, op.batches);
    if ShouldSeal(cfg, c, op.now).Some? { ClosedAfterWindow(cfg, c, op.now); }
  }

  lemma AppendTold(cfg: Config, h: History, s: Store, op: Timed, clock: nat)
    requires op.TAppend? && Registered(s) && Told(h, s, clock) && clock <= op.now && Calm(cfg, s, op)
             && cfg.maxResident >= MINUTE
    ensures Told(Log(h, s, Perform(cfg, s, op), op), Perform(cfg, s, op), op.now)
  {
    if op.batches != [] && !PressureOf(cfg, s).Reject? {
      var r := Ready(cfg, s, op.key, op.schemaVersion, op.schema, op.now);
      ReadyTold(cfg, h, s, op, clock);
      AppendOpen(cfg, s, op);
      DueAfterWindow(cfg, s, op);
      FilledTold(cfg, Log(h, s, r, op), r, Perform(cfg, s, op), op.key, op.now);
    }
  }

  // ---- runs

  ghost predicate CalmRun(cfg: Config, s: Store, ops: seq<Timed>, clock: nat)
    decreases |ops|
  {
    ops == [] || (Calm(cfg, s, ops[0]) && clock <= Clock(ops[0], clock)
                  && CalmRun(cfg, Perform(cfg, s, ops[0]), ops[1..], Clock(ops[0], clock)))
  }

  ghost function Chronicle(cfg: Config, h: History, s: Store, ops: seq<Timed>): History
    decreases |ops|
  {
    if ops == [] then h
    else Chronicle(cfg, Log(h, s, Perform(cfg, s, ops[0]), ops[0]), Perform(cfg, s, ops[0]), ops[1..])
  }

  lemma StepTold(cfg: Config, h: History, s: Store, op: Timed, clock: nat)
    requires Registered(s) && Told(h, s, clock) && clock <= Clock(op, clock) && Calm(cfg, s, op)
             && cfg.maxResident >= MINUTE
    ensures Registered(Perform(cfg, s, op))
    ensures Told(Log(h, s, Perform(cfg, s, op), op), Perform(cfg, s, op), Clock(op, clock))
  {
    match op {
      case TAppend(key, schemaVersion, schema, seqNo, batches, now) =>
        AppendValid(cfg, s, key, schemaVersion, schema, seqNo, batches, now);
        AppendTold(cfg, h, s, op, clock);
      case TTick(now, outcomes) =>
        TickRegistered(cfg, s, now, outcomes);
        TickTold(cfg, h, s, now, outcomes, clock);
      case TOther(_) =>
    }
  }

  lemma {:induction false} RunTold(cfg: Config, h: History, s: Store, ops: seq<Timed>, clock: nat)
    requires Registered(s) && Told(h, s, clock) && CalmRun(cfg, s, ops, clock) && cfg.maxResident >= MINUTE
    ensures forall k | k in Chronicle(cfg, h, s, ops) :: RisingMinutes(Chronicle(cfg, h, s, ops)[k])
    decreases |ops|
  {
    if ops != [] {
      StepTold(cfg, h, s, ops[0], clock);
      RunTold(cfg, Log(h, s, Perform(cfg, s, ops[0]), ops[0]), Perform(cfg, s, ops[0]), ops[1..], Clock(ops[0], clock));
    }
  }

  /** The chunks of one key are created in different arrival minutes, each later than the one before. */
  lemma OneChunkPerMinute(cfg: Config, ops: seq<Timed>, key: ChunkKey, i: nat, j: nat)
    requires cfg.maxResident >= MINUTE && CalmRun(cfg, EmptyStore(), ops, 0)
    requires var times := Times(Chronicle(cfg, map[], EmptyStore(), ops), key); i < j < |times|
    ensures var times := Times(Chronicle(cfg, map[], EmptyStore(), ops), key);
            WindowStart(times[i]) < WindowStart(times[j])
  {
    RunTold(cfg, map[], EmptyStore(), ops, 0);
  }
}

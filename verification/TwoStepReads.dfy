/** A read takes the rows and the watermark in two steps, and anything may happen in between. */
module TwoStepReads {
  import opened ChunkModel
  import opened ChunkOps
  import opened ChunkRegistry
  import opened ChunkFrames
  import opened Handoff

  lemma WatermarkGrows(cfg: Config, w: World, a: Action)
    requires Sound(w) && Allowed(w, a)
    ensures w.store.watermark <= Do(cfg, w, a).store.watermark
  {
    match a {
      case Local(op) => ApplyLocalExtends(cfg, w.store, op);
      case GiveUpCopies(cached) => ReclaimSpec(w.store, cached);
      case _ =>
    }
  }

  lemma {:induction false} WatermarkGrowsAll(cfg: Config, w: World, actions: seq<Action>)
    requires Sound(w) && AllAllowed(cfg, w, actions)
    ensures w.store.watermark <= DoAll(cfg, w, actions).store.watermark
    decreases |actions|
  {
    if actions != [] {
      WatermarkGrows(cfg, w, actions[0]);
      DoLinked(cfg, w, actions[0]);
      DoRegistered(cfg, w, actions[0]);
      WatermarkGrowsAll(cfg, Do(cfg, w, actions[0]), actions[1..]);
    }
  }

  /** Reading one shard takes the rows first and the watermark afterwards. Whatever happens in between, an
      answer that is not flagged is right, but for the two failures that the first step can already see. */
  lemma RowsThenWatermark(cfg: Config, w: World, between: seq<Action>, table: string, at: nat, id: nat)
    requires Sound(w) && AllAllowed(cfg, w, between) && at <= w.cat.data.snapshot
    requires id in w.rows && w.rows[id].0.table == table && Current(w.store, w.rows[id].0)
    requires !Stale(DoAll(cfg, w, between), at)
    ensures (Hot(w, table, at, id) <==> !Covered(w, at, id))
            <==> !ReplacedUnmarked(w, at, id) && !MarkedWithoutFile(w, at, id)
  {
    WatermarkGrowsAll(cfg, w, between);
    ReadOnceIff(w, table, at, id);
  }

  /** Reading a whole table takes the watermark first. If a chunk committed after `at` is given up before the
      rows are taken, it is in neither source, and the earlier watermark does not show it. */
  lemma WatermarkThenRowsLoses(w: World, cached: nat, table: string, at: nat, id: nat)
    requires Sound(w) && !Stale(w, at) && id in w.store.chunks && Current(w.store, w.store.chunks[id].key)
    requires CaughtUp(w.store.chunks[id], cached) && w.store.chunks[id].flush.committed.value > at
    ensures var x := w.(store := Reclaim(w.store, cached));
            !Hot(x, table, at, id) && !Covered(x, at, id) && Stale(x, at)
  {
    ReclaimSpec(w.store, cached);
    assert ChunkOk(w, id);
  }

  // ---------------------------------------------------------------- watermark first: what may happen in between

  /** Giving up copies takes the chunk: a reader at `cached` has its file, a reader at `at` has not. */
  predicate TakesNow(w: World, a: Action, at: nat, id: nat) {
    && a.GiveUpCopies? && id in w.store.chunks && CaughtUp(w.store.chunks[id], a.cached)
    && w.store.chunks[id].flush.committed.value > at
  }

  ghost predicate TakenLate(cfg: Config, w: World, actions: seq<Action>, at: nat, id: nat)
    requires AllAllowed(cfg, w, actions)
    decreases |actions|
  {
    actions != [] && (TakesNow(w, actions[0], at, id) || TakenLate(cfg, Do(cfg, w, actions[0]), actions[1..], at, id))
  }

  /** The chunk has no copy any more, and was marked later than `at`. */
  predicate GoneLate(w: World, at: nat, id: nat) {
    id in w.rows && id !in w.store.chunks && id in w.answers && w.answers[id].snapshot > at
  }

  lemma LocalRowsStay(cfg: Config, w: World, op: LocalOp, id: nat)
    requires Sound(w) && id in w.rows
    ensures var x := DoLocal(w, ApplyLocal(cfg, w.store, op));
            id in x.rows && x.rows[id].0 == w.rows[id].0 && x.store.liveness == w.store.liveness
  {
    ApplyLocalExtends(cfg, w.store, op);
    if id in w.store.chunks { assert ChunkOk(w, id)
        && SameProgress(w.store.chunks[id], ApplyLocal(cfg, w.store, op).chunks[id]); }
    else { assert id !in ApplyLocal(cfg, w.store, op).chunks; }
  }

  lemma RowsStay(cfg: Config, w: World, a: Action, id: nat)
    requires Sound(w) && Allowed(w, a) && id in w.rows
    ensures var x := Do(cfg, w, a);
            && id in x.rows && x.rows[id].0 == w.rows[id].0
            && (Current(x.store, w.rows[id].0) ==> Current(w.store, w.rows[id].0))
            && (id in w.answers && id !in w.store.chunks ==> id in x.answers && x.answers[id] == w.answers[id])
  {
    EraStays(cfg, w, a, w.rows[id].0);
    if a.Local? { LocalRowsStay(cfg, w, a.step, id); }
  }

  /** An era that has ended does not come back. */
  lemma EraStays(cfg: Config, w: World, a: Action, key: ChunkKey)
    requires Registered(w.store) && Allowed(w, a) && key.epoch <= LivenessOf(w.store, key.table).epoch
    ensures Current(Do(cfg, w, a).store, key) ==> Current(w.store, key)
  {
    match a {
      case Local(op) => ApplyLocalExtends(cfg, w.store, op);
      case GiveUpCopies(cached) => ReclaimSpec(w.store, cached);
      case _ =>
    }
  }

  lemma ChunksStay(cfg: Config, w: World, a: Action, at: nat, id: nat)
    requires Sound(w) && Allowed(w, a) && id in w.rows && Current(Do(cfg, w, a).store, w.rows[id].0)
    ensures var x := Do(cfg, w, a);
            && (id in x.store.chunks ==> id in w.store.chunks)
            && (id in w.store.chunks && id !in x.store.chunks
                ==> a.GiveUpCopies? && CaughtUp(w.store.chunks[id], a.cached))
            && (a.GiveUpCopies? && id in w.store.chunks && CaughtUp(w.store.chunks[id], a.cached)
                ==> id !in x.store.chunks)
  {
    RowsStay(cfg, w, a, id);
    if id in w.store.chunks { assert ChunkOk(w, id); }
    if a.Local? {
      LocalChunksStay(cfg, w, a.step, id);
    } else if a.GiveUpCopies? {
      GivenUpIff(w, a.cached, id);
    } else {
      OtherChunksStay(cfg, w, a, id);
    }
  }

  lemma OtherChunksStay(cfg: Config, w: World, a: Action, id: nat)
    requires Allowed(w, a) && !a.Local? && !a.GiveUpCopies?
    ensures id in Do(cfg, w, a).store.chunks <==> id in w.store.chunks && !(a.Drop? && a.id == id)
  {
  }

  lemma LocalChunksStay(cfg: Config, w: World, op: LocalOp, id: nat)
    requires Sound(w) && id in w.rows
    ensures id in ApplyLocal(cfg, w.store, op).chunks <==> id in w.store.chunks
  {
    ApplyLocalExtends(cfg, w.store, op);
  }

  lemma GivenUpIff(w: World, cached: nat, id: nat)
    requires Sound(w)
    ensures var t := Reclaim(w.store, cached);
            && (id in t.chunks ==> id in w.store.chunks)
            && (id in w.store.chunks && Current(w.store, w.store.chunks[id].key)
                ==> (id in t.chunks <==> !CaughtUp(w.store.chunks[id], cached)))
  {
    ReclaimSpec(w.store, cached);
  }

  lemma OneStep(cfg: Config, w: World, a: Action, at: nat, id: nat)
    requires Sound(w) && Allowed(w, a) && id in w.rows && Current(Do(cfg, w, a).store, w.rows[id].0)
    ensures GoneLate(Do(cfg, w, a), at, id) <==> GoneLate(w, at, id) || TakesNow(w, a, at, id)
  {
    RowsStay(cfg, w, a, id);
    ChunksStay(cfg, w, a, at, id);
    if id in w.store.chunks { assert ChunkOk(w, id); } else { assert GoneOk(w, id); }
  }

  lemma {:induction false} StaysCurrent(cfg: Config, w: World, actions: seq<Action>, id: nat)
    requires Sound(w) && AllAllowed(cfg, w, actions) && id in w.rows
    ensures var x := DoAll(cfg, w, actions);
            id in x.rows && x.rows[id].0 == w.rows[id].0
                && (Current(x.store, w.rows[id].0) ==> Current(w.store, w.rows[id].0))
    decreases |actions|
  {
    if actions != [] {
      RowsStay(cfg, w, actions[0], id);
      DoSound(cfg, w, actions[0]);
      StaysCurrent(cfg, Do(cfg, w, actions[0]), actions[1..], id);
    }
  }

  lemma DoSound(cfg: Config, w: World, a: Action)
    requires Sound(w) && Allowed(w, a)
    ensures Sound(Do(cfg, w, a))
  {
    DoLinked(cfg, w, a);
    DoRegistered(cfg, w, a);
  }

  lemma FirstStep(cfg: Config, w: World, a: Action, at: nat, id: nat)
    requires Sound(w) && Allowed(w, a)
    requires var y := Do(cfg, w, a); id in y.rows ==> Current(y.store, y.rows[id].0)
    ensures GoneLate(Do(cfg, w, a), at, id) <==> GoneLate(w, at, id) || TakesNow(w, a, at, id)
  {
    if id in w.rows {
      RowsStay(cfg, w, a, id);
      OneStep(cfg, w, a, at, id);
    } else {
      NotYet(cfg, w, a, id);
    }
  }

  /** A row that appears comes with its chunk. */
  lemma NotYet(cfg: Config, w: World, a: Action, id: nat)
    requires Sound(w) && Allowed(w, a) && id !in w.rows
    ensures id !in w.store.chunks && (id in Do(cfg, w, a).rows ==> id in Do(cfg, w, a).store.chunks)
  {
    assert id in w.store.chunks ==> ChunkOk(w, id);
  }

  lemma {:induction false} LateIff(cfg: Config, w: World, actions: seq<Action>, at: nat, id: nat)
    requires Sound(w) && AllAllowed(cfg, w, actions)
    requires var x := DoAll(cfg, w, actions); id in x.rows && Current(x.store, x.rows[id].0)
    ensures GoneLate(DoAll(cfg, w, actions), at, id) <==> GoneLate(w, at, id) || TakenLate(cfg, w, actions, at, id)
    decreases |actions|
  {
    if actions != [] {
      var y := Do(cfg, w, actions[0]);
      DoSound(cfg, w, actions[0]);
      LateIff(cfg, y, actions[1..], at, id);
      if id in y.rows { StaysCurrent(cfg, y, actions[1..], id); }
      FirstStep(cfg, w, actions[0], at, id);
    }
  }

  /** A whole table is read with the watermark first. An answer that is not flagged is right about a chunk exactly if,
      by the time the rows are taken, its file was not replaced before it was marked, it was not marked after a refusal,
      and no giving up of copies in between took it for readers beyond a commit later than `at`. */
  lemma WatermarkThenRowsIff(cfg: Config, w: World, between: seq<Action>, table: string, at: nat, id: nat)
    requires Sound(w) && AllAllowed(cfg, w, between) && !Stale(w, at)
    requires var x := DoAll(cfg, w, between);
             at <= x.cat.data.snapshot && id in x.rows && x.rows[id].0.table == table && Current(x.store, x.rows[id].0)
    ensures var x := DoAll(cfg, w, between);
            (Hot(x, table, at, id) <==> !Covered(x, at, id)) <==>
            !ReplacedUnmarked(x, at, id) && !MarkedWithoutFile(x, at, id) && !TakenLate(cfg, w, between, at, id)
  {
    var x := DoAll(cfg, w, between);
    RunSound(cfg, w, between);
    LateIff(cfg, w, between, at, id);
    NotLateBefore(cfg, w, between, at, id);
    RightIff(x, table, at, id);
  }

  lemma NotLateBefore(cfg: Config, w: World, between: seq<Action>, at: nat, id: nat)
    requires Sound(w) && AllAllowed(cfg, w, between) && !Stale(w, at)
    requires var x := DoAll(cfg, w, between); id in x.rows && Current(x.store, x.rows[id].0)
    ensures !GoneLate(w, at, id)
  {
    if id in w.rows {
      StaysCurrent(cfg, w, between, id);
      assert GoneOk(w, id);
    }
  }

  lemma RightIff(x: World, table: string, at: nat, id: nat)
    requires Sound(x) && at <= x.cat.data.snapshot
    requires id in x.rows && x.rows[id].0.table == table && Current(x.store, x.rows[id].0)
    ensures (Hot(x, table, at, id) <==> !Covered(x, at, id)) <==>
            !ReplacedUnmarked(x, at, id) && !MarkedWithoutFile(x, at, id) && !GoneLate(x, at, id)
  {
    if id in x.store.chunks {
      PresentRight(x, table, at, id);
    } else {
      assert GoneOk(x, id);
    }
  }

  lemma PresentRight(x: World, table: string, at: nat, id: nat)
    requires Sound(x) && at <= x.cat.data.snapshot && id in x.store.chunks && x.store.chunks[id].key.table == table
    requires Current(x.store, x.store.chunks[id].key)
    ensures (Hot(x, table, at, id) <==> !Covered(x, at, id))
            <==> !ReplacedUnmarked(x, at, id) && !MarkedWithoutFile(x, at, id)
  {
    assert ChunkOk(x, id);
    if id in x.answers { assert AnswerOk(x, id); }
  }
}

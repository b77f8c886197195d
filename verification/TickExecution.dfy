/** One round of the accumulator on the store itself: plan, close what the plan names, then flush it. The round comes to
    the tick that the bounds on time are proved of. */
module TickExecution {
  import opened Common
  import opened CatalogModel
  import opened ChunkOps
  import opened ChunkRegistry
  import opened ChunkTiming
  import opened ChunkStoreClass

  // ---------------------------------------------------------------- closing what is due

  /** The chunks in `done` are closed and their keys are free; those in `rest` have their reasons noted. */
  ghost predicate Sealing(cfg: Config, s: Store, t: Store, done: set<nat>, rest: set<nat>, now: nat) {
    && t.chunks.Keys == s.chunks.Keys && t.liveness == s.liveness
    && (forall id | id in s.chunks ::
          t.chunks[id] == if id in done then Closed(cfg, PressureOf(cfg, s), s.chunks[id], now) else s.chunks[id])
    && (forall k :: k in t.open <==> k in s.open && s.open[k] !in done)
    && (forall k | k in t.open :: t.open[k] == s.open[k])
    && (forall id | id in rest && id in s.chunks ::
          id in t.pendingSeal && t.pendingSeal[id] == (SealReasonOf(cfg, s.chunks[id], now), Some(PressureOf(cfg, s))))
  }

  /** Closing a chunk by the reason noted for it. */
  lemma SealPlanned(cfg: Config, s: Store, t: Store, id: nat, now: nat)
    requires id in t.chunks && t.chunks[id].state.Open? && SealDue(cfg, t.chunks[id], now)
    requires id in t.pendingSeal && t.pendingSeal[id]
             == (SealReasonOf(cfg, t.chunks[id], now), Some(PressureOf(cfg, s)))
    ensures var u := SealById(t, id, now);
            && u.chunks == t.chunks[id := Closed(cfg, PressureOf(cfg, s), t.chunks[id], now)]
            && u.open == t.open - {t.chunks[id].key} && u.pendingSeal == t.pendingSeal - {id}
                && u.liveness == t.liveness
  {
  }

  lemma SealNext(cfg: Config, s: Store, t: Store, done: set<nat>, rest: set<nat>, id: nat, now: nat)
    requires OpenOk(s.chunks, s.open) && id in s.chunks && SealDue(cfg, s.chunks[id], now) && id !in done && id in rest
    requires Sealing(cfg, s, t, done, rest, now)
    ensures Sealing(cfg, s, SealById(t, id, now), done + {id}, rest - {id}, now)
  {
    SealPlanned(cfg, s, t, id, now);
    OnlyItsKey(s, done, id);
  }

  /** Taking away the key of an open chunk is taking away the entry that names it. */
  lemma OnlyItsKey(s: Store, done: set<nat>, id: nat)
    requires OpenOk(s.chunks, s.open) && id in s.chunks && s.chunks[id].state.Open?
    ensures forall k | k in s.open && s.open[k] !in done :: k != s.chunks[id].key <==> s.open[k] !in done + {id}
  {
  }

  // ---------------------------------------------------------------- flushing what is due

  /** A chunk of a past era is not flushed but discarded. */
  function FlushOne(s: Store, id: nat, now: nat, outcomes: map<nat, nat>): Store {
    if id in s.chunks && !Current(s, s.chunks[id].key) then Discard(s, id).0
    else if id in outcomes then MarkCommittedById(s, id, outcomes[id]).0 else NoteFailureById(s, id, now)
  }

  /** The chunks in `done` were flushed, their failure noted, or discarded. */
  ghost predicate Flushing(cfg: Config, s: Store, t: Store, done: set<nat>, now: nat, outcomes: map<nat, nat>) {
    var p := PressureOf(cfg, s);
    && t.liveness == s.liveness
    && (forall id :: id in t.chunks <==> id in s.chunks && !(id in done && !Current(s, s.chunks[id].key)))
    && (forall id | id in t.chunks ::
          t.chunks[id] == var c := Closed(cfg, p, s.chunks[id], now);
              if id in done then Attempted(c, now, OutcomeOf(outcomes, id)) else c)
  }

  lemma FlushNext(cfg: Config, s: Store, t: Store, done: set<nat>, id: nat, now: nat, outcomes: map<nat, nat>)
    requires id in s.chunks && id !in done && Flushing(cfg, s, t, done, now, outcomes)
             && forall k | k in t.open :: t.open[k] != id
    ensures Flushing(cfg, s, FlushOne(t, id, now, outcomes), done + {id}, now, outcomes)
    ensures FlushOne(t, id, now, outcomes).open == t.open
  {
    assert Current(t, s.chunks[id].key) == Current(s, s.chunks[id].key);
    FlushOneIs(t, id, now, outcomes);
  }

  lemma FlushOneIs(t: Store, id: nat, now: nat, outcomes: map<nat, nat>)
    requires id in t.chunks && forall k | k in t.open :: t.open[k] != id
    ensures var u := FlushOne(t, id, now, outcomes);
            && u.open == t.open && u.liveness == t.liveness
            && u.chunks == if !Current(t, t.chunks[id].key) then t.chunks - {id}
                           else t.chunks[id := Attempted(t.chunks[id], now, OutcomeOf(outcomes, id))]
  {
  }

  // ---------------------------------------------------------------- the round

  function SealAll(s: Store, ids: seq<nat>, now: nat): Store
    decreases |ids|
  {
    if ids == [] then s else SealAll(SealById(s, ids[0], now), ids[1..], now)
  }

  function FlushAll(s: Store, ids: seq<nat>, now: nat, outcomes: map<nat, nat>): Store
    decreases |ids|
  {
    if ids == [] then s else FlushAll(FlushOne(s, ids[0], now, outcomes), ids[1..], now, outcomes)
  }

  lemma TakeFirst(ids: seq<nat>)
    requires ids != [] && Rising(ids)
    ensures Rising(ids[1..]) && ids[0] !in Members(ids[1..]) && Members(ids) == Members(ids[1..]) + {ids[0]}
            && ids[0] in ids
  {
    assert ids == [ids[0]] + ids[1..];
  }

  lemma {:induction false} SealAllCloses(cfg: Config, s: Store, t: Store, done: set<nat>, ids: seq<nat>, now: nat)
    requires OpenOk(s.chunks, s.open) && Rising(ids) && done !! Members(ids)
    requires forall id | id in Members(ids) :: id in s.chunks && SealDue(cfg, s.chunks[id], now)
    requires Sealing(cfg, s, t, done, Members(ids), now)
    ensures Sealing(cfg, s, SealAll(t, ids, now), done + Members(ids), {}, now)
    decreases |ids|
  {
    if ids != [] {
      TakeFirst(ids);
      var rest := Members(ids[1..]);
      assert Members(ids) - {ids[0]} == rest && done + {ids[0]} + rest == done + Members(ids);
      SealNext(cfg, s, t, done, Members(ids), ids[0], now);
      SealAllCloses(cfg, s, SealById(t, ids[0], now), done + {ids[0]}, ids[1..], now);
    } else {
      assert Members(ids) == {} && done + {} == done;
    }
  }

  lemma {:induction false} FlushAllFlushes(cfg: Config, s: Store, t: Store, done: set<nat>, ids: seq<nat>, now: nat,
                                           outcomes: map<nat, nat>)
    requires Rising(ids) && done !! Members(ids) && (forall id | id in Members(ids) :: id in s.chunks)
    requires Flushing(cfg, s, t, done, now, outcomes) && forall k | k in t.open :: t.open[k] !in Members(ids)
    ensures Flushing(cfg, s, FlushAll(t, ids, now, outcomes), done + Members(ids), now, outcomes)
    ensures FlushAll(t, ids, now, outcomes).open == t.open
    decreases |ids|
  {
    if ids != [] {
      TakeFirst(ids);
      FlushNext(cfg, s, t, done, ids[0], now, outcomes);
      FlushAllFlushes(cfg, s, FlushOne(t, ids[0], now, outcomes), done + {ids[0]}, ids[1..], now, outcomes);
      assert done + {ids[0]} + Members(ids[1..]) == done + Members(ids);
    } else {
      assert Members(ids) == {} && done + {} == done;
    }
  }

  lemma NothingSealed(cfg: Config, s: Store, t: Store, seals: seq<nat>, now: nat)
    requires t.chunks == s.chunks && t.open == s.open && t.liveness == s.liveness
    requires t.pendingSeal == s.pendingSeal + Reasons(cfg, PressureOf(cfg, s), s.chunks, now, seals)
    requires forall id | id in Members(seals) :: id in Reasons(cfg, PressureOf(cfg, s), s.chunks, now, seals)
    ensures Sealing(cfg, s, t, {}, Members(seals), now)
  {
  }

  lemma SealsAll(cfg: Config, s: Store, t: Store, seals: seq<nat>, now: nat)
    requires Registered(s) && t.chunks == s.chunks && t.open == s.open && t.liveness == s.liveness && Rising(seals)
             && Members(seals) == DueToSeal(cfg, s.chunks, now)
    requires t.pendingSeal == s.pendingSeal + Reasons(cfg, PressureOf(cfg, s), s.chunks, now, seals)
    ensures Sealing(cfg, s, SealAll(t, seals, now), Members(seals), {}, now)
  {
    NothingSealed(cfg, s, t, seals, now);
    SealAllCloses(cfg, s, t, {}, seals, now);
    assert {} + Members(seals) == Members(seals);
  }

  /** Closing and flushing what a plan names, one after the other, comes to the tick. */
  lemma RoundIsTick(cfg: Config, s: Store, t: Store, seals: seq<nat>, flushes: seq<nat>, now: nat,
                    outcomes: map<nat, nat>)
    requires Registered(s) && t.chunks == s.chunks && t.open == s.open && t.liveness == s.liveness
    requires var p := PressureOf(cfg, s);
             && Selects(seals, DueToSeal(cfg, s.chunks, now), s.nextId + 1)
             && Selects(flushes, DueToFlush(cfg, p, s.chunks, now), s.nextId + 1)
             && t.pendingSeal == s.pendingSeal + Reasons(cfg, p, s.chunks, now, seals)
    ensures var u, tick := FlushAll(SealAll(t, seals, now), flushes, now, outcomes), Tick(cfg, s, now, outcomes);
            u.chunks == tick.chunks && u.open == tick.open
  {
    var p := PressureOf(cfg, s);
    assert Members(seals) == DueToSeal(cfg, s.chunks, now) && Members(flushes) == DueToFlush(cfg, p, s.chunks, now);
    var u := SealAll(t, seals, now);
    SealsAll(cfg, s, t, seals, now);
    ClosedAll(cfg, s, u, now, outcomes);
    OpenAfter(cfg, s, u, now, outcomes);
    FlushAllFlushes(cfg, s, u, {}, flushes, now, outcomes);
    assert {} + Members(flushes) == Members(flushes);
    TickReached(cfg, s, FlushAll(u, flushes, now, outcomes), now, outcomes);
  }

  lemma ClosedAll(cfg: Config, s: Store, u: Store, now: nat, outcomes: map<nat, nat>)
    requires Sealing(cfg, s, u, DueToSeal(cfg, s.chunks, now), {}, now)
    ensures Flushing(cfg, s, u, {}, now, outcomes)
  {
    forall id | id in s.chunks ensures u.chunks[id] == Closed(cfg, PressureOf(cfg, s), s.chunks[id], now) {
    }
  }

  lemma OpenAfter(cfg: Config, s: Store, u: Store, now: nat, outcomes: map<nat, nat>)
    requires Sealing(cfg, s, u, DueToSeal(cfg, s.chunks, now), {}, now)
    ensures u.open == Tick(cfg, s, now, outcomes).open
  {
    var t := Tick(cfg, s, now, outcomes);
    forall k ensures k in u.open <==> k in t.open {
    }
  }

  lemma TickReached(cfg: Config, s: Store, u: Store, now: nat, outcomes: map<nat, nat>)
    requires Flushing(cfg, s, u, DueToFlush(cfg, PressureOf(cfg, s), s.chunks, now), now, outcomes)
    ensures u.chunks == Tick(cfg, s, now, outcomes).chunks
  {
  }

  /** Plan, close, flush: `outcomes` says which flushes succeed, and at which snapshot. */
  method Round(store: ChunkStore, now: nat, outcomes: map<nat, nat>)
    requires Registered(store.View())
    modifies store
    ensures store.chunks == Tick(store.cfg, old(store.View()), now, outcomes).chunks
    ensures store.open == Tick(store.cfg, old(store.View()), now, outcomes).open
  {
    ghost var s := store.View();
    var plan := store.PlanFlush(now);
    RoundIsTick(store.cfg, s, store.View(), plan.seal, plan.flush, now, outcomes);
    CloseEach(store, plan.seal, now);
    FlushEach(store, plan.flush, now, outcomes);
  }

  method CloseEach(store: ChunkStore, ids: seq<nat>, now: nat)
    modifies store
    ensures store.View() == SealAll(old(store.View()), ids, now)
  {
    for i := 0 to |ids|
      invariant SealAll(store.View(), ids[i..], now) == SealAll(old(store.View()), ids, now)
    {
      assert ids[i..][0] == ids[i] && ids[i..][1..] == ids[i + 1..];
      store.SealById(ids[i], now);
    }
  }

  method FlushEach(store: ChunkStore, ids: seq<nat>, now: nat, outcomes: map<nat, nat>)
    modifies store
    ensures store.View() == FlushAll(old(store.View()), ids, now, outcomes)
  {
    for i := 0 to |ids|
      invariant FlushAll(store.View(), ids[i..], now, outcomes) == FlushAll(old(store.View()), ids, now, outcomes)
    {
      assert ids[i..][0] == ids[i] && ids[i..][1..] == ids[i + 1..];
      if ids[i] in store.chunks && store.Stale(store.chunks[ids[i]].key) {
        var _ := store.Discard(ids[i]);
      } else if ids[i] in outcomes {
        var _ := store.MarkCommitted(ids[i], outcomes[ids[i]]);
      } else {
        store.NoteFlushFailure(ids[i], now);
      }
    }
  }
}

/** Collecting orphaned objects while writers and compactors are at work. The collector lists the objects,
    then reads which batches are known, then deletes; the three may be arbitrarily far apart. */
module OrphanGc {
  import opened CatalogModel
  import opened CatalogOps
  import opened Evolution

  /** `listed` are the objects the collector saw, `known` the batches the catalog named afterwards. */
  datatype Collector = Resting | Listed(listed: set<string>) | Informed(listed: set<string>, known: set<string>)

  /** Data objects are named by their batch. `uploaded` holds every batch whose object was ever put, `used` every batch
      identifier, and `exposed` those that were uploaded unannounced or that the catalog ceased to know. */
  datatype World = World(
    state: State, objects: set<string>, announced: set<string>, uploaded: set<string>, exposed: set<string>,
    used: set<string>, collectors: seq<Collector>)

  datatype Action =
    | Announce(batch: string, now: nat)     // a flush or a compaction registers the batch in flight
    | Upload(batch: string)                 // then puts the object
    | UploadUnannounced(batch: string)      // an UPDATE puts the object of its new rows without registering it
    | Commit(op: Op)                        // then tries, perhaps repeatedly, to make it part of the catalog
    | Other(op: Op)
    | List(collector: nat)
    | Inform(collector: nat)
    | Delete(collector: nat, batch: string)

  /** The batches whose files or in-flight entries a commit touches. */
  function Committed(op: Op): set<string> {
    match op
    case OpCommitFiles(req, _) => {req.batchId}
    case OpApplyUpdate(_, newFiles, _, _) => BatchIds(newFiles)
    case OpCommitCompaction(_, news, _, _) => BatchIds(news)
    case _ => {}
  }

  predicate IsCommit(op: Op) {
    op.OpCommitFiles? || op.OpApplyUpdate? || op.OpCommitCompaction?
  }

  /** Batch identifiers are new, an object is put before its batch is committed, and the products of a compaction do not
      replace files. */
  ghost predicate Allowed(w: World, a: Action) {
    match a
    case Announce(b, _) => b !in w.used
    case Upload(b) => b in w.announced
    case UploadUnannounced(b) => b !in w.used
    case Commit(op) => IsCommit(op) && Committed(op) <= w.uploaded && Overwritten(w.state.data.files, op) == {}
    case Other(op) => !IsCommit(op)
    case List(i) => i < |w.collectors| && w.collectors[i].Resting?
    case Inform(i) => i < |w.collectors| && w.collectors[i].Listed?
    case Delete(i, b) =>
      i < |w.collectors| && w.collectors[i].Informed? && b in w.collectors[i].listed && b !in w.collectors[i].known
  }

  /** The catalog knew the batch and, after the operation, does not. */
  ghost predicate Forgets(s: State, op: Op, b: string) {
    b in KnownBatchIds(s) && b !in KnownBatchIds(Step(s, op))
  }

  ghost function DoStep(w: World, op: Op): World {
    w.(state := Step(w.state, op), exposed := w.exposed + (KnownBatchIds(w.state) - KnownBatchIds(Step(w.state, op))))
  }

  ghost function Do(w: World, a: Action): World
    requires Allowed(w, a)
  {
    match a
    case Announce(b, now) => DoStep(w, OpRecordInFlight(b, now)).(announced := w.announced + {b}, used := w.used + {b})
    case Upload(b) => w.(objects := w.objects + {b}, announced := w.announced - {b}, uploaded := w.uploaded + {b})
    case UploadUnannounced(b) =>
      w.(objects := w.objects + {b}, uploaded := w.uploaded + {b}, exposed := w.exposed + {b}, used := w.used + {b})
    case Commit(op) => DoStep(w, op)
    case Other(op) => DoStep(w, op)
    case List(i) => w.(collectors := w.collectors[i := Listed(w.objects)])
    case Inform(i) => w.(collectors := w.collectors[i := Informed(w.collectors[i].listed, KnownBatchIds(w.state))])
    case Delete(_, b) => w.(objects := w.objects - {b})
  }

  ghost predicate AllAllowed(w: World, actions: seq<Action>)
    decreases |actions|
  {
    actions == [] || (Allowed(w, actions[0]) && AllAllowed(Do(w, actions[0]), actions[1..]))
  }

  ghost function DoAll(w: World, actions: seq<Action>): World
    requires AllAllowed(w, actions)
    decreases |actions|
  {
    if actions == [] then w else DoAll(Do(w, actions[0]), actions[1..])
  }

  predicate Protected(d: Data, b: string) {
    b in d.files && d.files[b].ProtectedAt(d.snapshot)
  }

  ghost predicate Fresh(w: World) {
    w.state == Initial() && w.objects == {} && w.announced == {} && w.uploaded == {} && w.exposed == {} && w.used == {}
    && forall i | 0 <= i < |w.collectors| :: w.collectors[i].Resting?
  }

  // ---------------------------------------------------------------- what catalog operations do

  /** New protected files come only from the commits, and tombstones never come back. */
  ghost predicate Guards(d: Data, e: Data, added: set<string>) {
    forall b | Protected(e, b) :: Protected(d, b) || b in added
  }

  lemma AdvanceGuards(d: Data, e: Data, op: Op, added: set<string>)
    requires Advances(d, e, op)
    requires forall b | b in e.files && b !in d.files :: b in added
    requires Overwritten(d.files, op) <= added
    ensures Guards(d, e, added)
  {
    forall b | Protected(e, b) && b !in added ensures Protected(d, b) {
      assert FileAdvances(d.files[b], e.files[b], b, d.snapshot, e.snapshot, b in Overwritten(d.files, op),
             WellFormed(op));
    }
  }

  lemma UpdateAddsOnly(d: Data, newFiles: seq<File>)
    ensures forall b | b in AddFiles(d.files, FreshFiles(d.files, newFiles), d.snapshot + 1)
            && b !in d.files :: b in BatchIds(newFiles)
  {
    FreshFilesSpec(d.files, newFiles);
    AddFilesSpec(d.files, FreshFiles(d.files, newFiles), d.snapshot + 1);
  }

  lemma SwapAddsOnly(d: Data, olds: seq<string>, news: seq<File>)
    ensures forall b | b in DataSwap(d, olds, news).files && b !in d.files :: b in BatchIds(news)
  {
    AddFilesSpec(Entomb(d.files, Ids(olds), d.snapshot + 1), news, d.snapshot + 1);
  }

  lemma NewFilesCommitted(s: State, op: Op)
    requires !op.OpDropTable?
    ensures forall b | b in Step(s, op).data.files && b !in s.data.files :: b in Committed(op)
  {
    if op.OpApplyUpdate? {
      UpdateAddsOnly(s.data, op.newFiles);
    } else if op.OpCommitCompaction? {
      SwapAddsOnly(s.data, op.olds, op.news);
    }
  }

  lemma DropGuards(s: State, table: string)
    ensures Guards(s.data, Step(s, OpDropTable(table)).data, {})
  {
  }

  lemma StepGuards(s: State, op: Op)
    ensures Guards(s.data, Step(s, op).data, Committed(op))
  {
    if op.OpDropTable? {
      DropGuards(s, op.table);
    } else {
      StepAdvances(s, op);
      NewFilesCommitted(s, op);
      AdvanceGuards(s.data, Step(s, op).data, op, Committed(op));
    }
  }

  // ---------------------------------------------------------------- the invariant

  /** What is known was put by somebody; what was never exposed has been known all along, and its object is there. */
  ghost predicate Safe(w: World) {
    && w.announced !! w.uploaded && w.announced + w.uploaded <= w.used && w.objects <= w.uploaded
    && (forall b | Protected(w.state.data, b) :: b in w.uploaded)
    && (forall b | b in w.used && b !in w.exposed :: b in KnownBatchIds(w.state))
    && (forall b | b in w.uploaded && b !in w.exposed :: b in w.objects)
    && (forall i | 0 <= i < |w.collectors| :: Remembers(w, w.collectors[i]))
  }

  ghost predicate Remembers(w: World, c: Collector) {
    && (c.Listed? ==> c.listed <= w.uploaded)
    && (c.Informed? ==> c.listed <= w.uploaded && forall b | b in c.listed && b !in c.known :: b in w.exposed)
  }

  lemma StepSafe(w: World, op: Op)
    requires Safe(w) && Committed(op) <= w.uploaded
    ensures Safe(DoStep(w, op))
  {
    StepGuards(w.state, op);
    var x := DoStep(w, op);
    forall i | 0 <= i < |x.collectors| ensures Remembers(x, x.collectors[i]) {
      assert Remembers(w, w.collectors[i]);
    }
  }

  lemma AnnounceSafe(w: World, b: string, now: nat)
    requires Safe(w) && Allowed(w, Announce(b, now))
    ensures Safe(Do(w, Announce(b, now)))
  {
    StepSafe(w, OpRecordInFlight(b, now));
    var x := Do(w, Announce(b, now));
    forall i | 0 <= i < |x.collectors| ensures Remembers(x, x.collectors[i]) {
      assert Remembers(DoStep(w, OpRecordInFlight(b, now)), w.collectors[i]);
    }
  }

  lemma UploadSafe(w: World, a: Action)
    requires Safe(w) && Allowed(w, a) && (a.Upload? || a.UploadUnannounced?)
    ensures Safe(Do(w, a))
  {
    var x := Do(w, a);
    forall i | 0 <= i < |x.collectors| ensures Remembers(x, x.collectors[i]) {
      assert Remembers(w, w.collectors[i]);
    }
  }

  lemma CollectorSafe(w: World, a: Action)
    requires Safe(w) && Allowed(w, a) && (a.List? || a.Inform? || a.Delete?)
    ensures Safe(Do(w, a))
  {
    var x := Do(w, a);
    forall i | 0 <= i < |x.collectors| ensures Remembers(x, x.collectors[i]) {
      assert Remembers(w, w.collectors[i]);
    }
    if a.Delete? { assert Remembers(w, w.collectors[a.collector]); }
  }

  lemma DoSafe(w: World, a: Action)
    requires Safe(w) && Allowed(w, a)
    ensures Safe(Do(w, a))
  {
    match a {
      case Announce(b, now) => AnnounceSafe(w, b, now);
      case Upload(_) => UploadSafe(w, a);
      case UploadUnannounced(_) => UploadSafe(w, a);
      case Commit(op) => StepSafe(w, op);
      case Other(op) => StepSafe(w, op);
      case _ => CollectorSafe(w, a);
    }
  }

  lemma {:induction false} RunSafe(w: World, actions: seq<Action>)
    requires Safe(w) && AllAllowed(w, actions)
    ensures Safe(DoAll(w, actions))
    decreases |actions|
  {
    if actions != [] {
      DoSafe(w, actions[0]);
      RunSafe(Do(w, actions[0]), actions[1..]);
    }
  }

  // ---------------------------------------------------------------- announced batches

  /** Whatever writers, compactors and collectors do, the object of a file visible now exists, unless it was put
      unannounced or the catalog once ceased to know its batch. */
  lemma VisibleFilesHaveObjects(w: World, actions: seq<Action>, table: string, b: string)
    requires Fresh(w) && AllAllowed(w, actions)
    requires var d := DoAll(w, actions).state.data; b in VisibleFiles(d, table, d.snapshot)
    requires b !in DoAll(w, actions).exposed
    ensures b in DoAll(w, actions).objects
  {
    RunSafe(w, actions);
    assert Protected(DoAll(w, actions).state.data, b);
  }

  /** A batch in flight that is no file yet is forgotten by expiry, by being cleared, and by a commit of its own that is
      refused for a client key or brings no file; by nothing else. */
  lemma ForgetsIff(s: State, op: Op, b: string)
    requires b in s.inFlight && b !in s.data.files && (op.OpCommitFiles? ==> Live(op.req.files))
    requires op.OpCommitCompaction? ==> Live(op.news)
    ensures Forgets(s, op, b) <==>
            || (op.OpSweepInFlight? && SatSub(op.now, s.inFlight[b]) >= op.ttl)
            || (op.OpClearInFlight? && op.batchId == b)
            || (op.OpCommitFiles? && op.req.batchId == b && |op.req.files| <= 1
                && (KeyTaken(s.idem, op.req.Keys(), b) || op.req.files == []))
  {
    if op.OpCommitCompaction? { CompactionKeepsKnown(s, op, b); }
  }

  /** An accepted compaction turns its products from batches in flight into files. */
  lemma CompactionKeepsKnown(s: State, op: Op, b: string)
    requires op.OpCommitCompaction? && Live(op.news) && b in s.inFlight
    ensures b in KnownBatchIds(Step(s, op))
  {
    var mid, next := Entomb(s.data.files, Ids(op.olds), s.data.snapshot + 1), s.data.snapshot + 1;
    AddFilesSpec(mid, op.news, next);
    if b in BatchIds(op.news) && Step(s, op) != s {
      var f :| f in op.news && f.batchId == b && AddFiles(mid, op.news, next)[b] == f.(validFrom := next);
    }
  }
}

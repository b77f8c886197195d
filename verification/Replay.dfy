/** Retries and log replay: an operation that took effect once does nothing when it comes again. */
module Replay {
  import opened CatalogModel
  import opened CatalogOps
  import opened Evolution

  // ---- what has taken effect

  predicate HasFiles(files: map<string, File>, added: seq<File>) {
    forall f | f in added :: f.batchId == "" || f.batchId in files
  }

  predicate HasDvs(dvs: map<(string, string), Dv>, entries: seq<Dv>) {
    forall d | d in entries :: d.Key() in dvs
  }

  /** The effect of `op` is already part of the state. */
  ghost predicate Settled(s: State, op: Op) {
    match op
    case OpCommitFiles(req, _) => |req.files| == 1 && req.batchId in s.data.files
    case OpApplyDeletions(entries, _) => HasDvs(s.data.dvs, entries)
    case OpApplyUpdate(entries, newFiles, _, _) => HasFiles(s.data.files, newFiles) && HasDvs(s.data.dvs, entries)
    case OpPurge(_, purgeId, _) => purgeId in s.purged
    case _ => false
  }

  /** `op` is a commit, DELETE, UPDATE or PURGE, and this application of it succeeds. */
  ghost predicate Succeeds(s: State, op: Op) {
    match op
    case OpCommitFiles(req, _) => |req.files| == 1 && CommitAccepted(s, req)
    case OpApplyDeletions(entries, _) => ApplyDeletions(s, entries).1.Ok?
    case OpApplyUpdate(entries, newFiles, updId, now) => ApplyUpdate(s, entries, newFiles, updId, now).1.Ok?
    case OpPurge(table, purgeId, _) => PurgeTable(s, table, purgeId).1.Ok?
    case _ => false
  }

  lemma NothingFreshFiles(files: map<string, File>, added: seq<File>)
    ensures FreshFiles(files, added) == [] <==> HasFiles(files, added)
  {
    FreshFilesSpec(files, added);
    if FreshFiles(files, added) != [] { assert FreshFiles(files, added)[0] in FreshFiles(files, added); }
  }

  lemma NothingFreshDvs(dvs: map<(string, string), Dv>, entries: seq<Dv>)
    ensures FreshDvs(dvs, entries) == [] <==> HasDvs(dvs, entries)
  {
    FreshDvsSpec(dvs, entries);
    if FreshDvs(dvs, entries) != [] { assert FreshDvs(dvs, entries)[0] in FreshDvs(dvs, entries); }
  }

  lemma AddedFilesPresent(files: map<string, File>, added: seq<File>, next: nat)
    ensures HasFiles(AddFiles(files, FreshFiles(files, added), next), added)
  {
    FreshFilesSpec(files, added);
    AddFilesSpec(files, FreshFiles(files, added), next);
  }

  lemma AddedDvsPresent(dvs: map<(string, string), Dv>, entries: seq<Dv>, next: nat)
    ensures HasDvs(AddDvs(dvs, FreshDvs(dvs, entries), next), entries)
  {
    FreshDvsSpec(dvs, entries);
    AddDvsSpec(dvs, FreshDvs(dvs, entries), next);
  }

  lemma DeletionsSettle(s: State, op: Op)
    requires op.OpApplyDeletions? && Succeeds(s, op)
    ensures Settled(Step(s, op), op)
  {
    NothingFreshDvs(s.data.dvs, op.entries);
    AddedDvsPresent(s.data.dvs, op.entries, s.data.snapshot + 1);
  }

  lemma UpdateSettles(s: State, op: Op)
    requires op.OpApplyUpdate? && Succeeds(s, op)
    ensures Settled(Step(s, op), op)
  {
    NothingFreshDvs(s.data.dvs, op.entries);
    NothingFreshFiles(s.data.files, op.newFiles);
    AddedDvsPresent(s.data.dvs, op.entries, s.data.snapshot + 1);
    AddedFilesPresent(s.data.files, op.newFiles, s.data.snapshot + 1);
  }

  lemma SuccessSettles(s: State, op: Op)
    requires Succeeds(s, op)
    ensures Settled(Step(s, op), op)
  {
    match op {
      case OpApplyDeletions(_, _) => DeletionsSettle(s, op);
      case OpApplyUpdate(_, _, _, _) => UpdateSettles(s, op);
      case _ =>
    }
  }

  // ---- it stays part of the state

  ghost predicate Keeps(s: State, t: State) {
    && s.data.files.Keys <= t.data.files.Keys && s.data.dvs.Keys <= t.data.dvs.Keys
    && forall i | i in s.purged :: i in t.purged && t.purged[i] == s.purged[i]
  }

  lemma PurgedKept(s: State, op: Op)
    ensures forall i | i in s.purged :: i in Step(s, op).purged && Step(s, op).purged[i] == s.purged[i]
  {
  }

  lemma {:induction false} RunKeeps(s: State, ops: seq<Op>)
    requires forall op | op in ops :: !op.OpDropTable?
    ensures Keeps(s, Run(s, ops))
    decreases |ops|
  {
    if ops != [] {
      StepAdvances(s, ops[0]);
      PurgedKept(s, ops[0]);
      RunKeeps(Step(s, ops[0]), ops[1..]);
    }
  }

  lemma SettledStays(s: State, t: State, op: Op)
    requires Keeps(s, t) && Settled(s, op)
    ensures Settled(t, op)
  {
  }

  // ---- it does nothing again

  lemma SettledIsNoOp(s: State, op: Op)
    requires Settled(s, op)
    ensures Step(s, op) == s
  {
    match op {
      case OpApplyDeletions(entries, _) => NothingFreshDvs(s.data.dvs, entries);
      case OpApplyUpdate(entries, newFiles, _, _) =>
        NothingFreshDvs(s.data.dvs, entries);
        NothingFreshFiles(s.data.files, newFiles);
      case _ =>
    }
  }

  /** Re-applying a successful commit, UPDATE, PURGE or DELETE leaves every later state equal. */
  lemma ReplayIsNoOp(s: State, op: Op, ops: seq<Op>)
    requires Succeeds(s, op) && forall o | o in ops :: !o.OpDropTable?
    ensures Step(Run(Step(s, op), ops), op) == Run(Step(s, op), ops)
  {
    SuccessSettles(s, op);
    RunKeeps(Step(s, op), ops);
    SettledStays(Step(s, op), Run(Step(s, op), ops), op);
    SettledIsNoOp(Run(Step(s, op), ops), op);
  }

  ghost predicate AllSucceed(s: State, log: seq<Op>)
    decreases |log|
  {
    log == [] || (Succeeds(s, log[0]) && AllSucceed(Step(s, log[0]), log[1..]))
  }

  lemma {:induction false} LogSettles(s: State, log: seq<Op>)
    requires AllSucceed(s, log)
    ensures forall op | op in log :: !op.OpDropTable? && Settled(Run(s, log), op)
    decreases |log|
  {
    if log != [] {
      var next := Step(s, log[0]);
      SuccessSettles(s, log[0]);
      LogSettles(next, log[1..]);
      RunKeeps(next, log[1..]);
      SettledStays(next, Run(s, log), log[0]);
      assert log == [log[0]] + log[1..];
    }
  }

  lemma {:induction false} SettledRunIsNoOp(s: State, again: seq<Op>)
    requires forall op | op in again :: Settled(s, op)
    ensures Run(s, again) == s
    decreases |again|
  {
    if again != [] {
      SettledIsNoOp(s, again[0]);
      SettledRunIsNoOp(s, again[1..]);
    }
  }

  /** Replaying any part of a log, in any order and any number of times, after any further operations,
      changes nothing. */
  lemma LogReplayIsNoOp(s: State, log: seq<Op>, later: seq<Op>, again: seq<Op>)
    requires AllSucceed(s, log) && (forall o | o in later :: !o.OpDropTable?) && (forall o | o in again :: o in log)
    ensures Run(Run(Run(s, log), later), again) == Run(Run(s, log), later)
  {
    LogSettles(s, log);
    RunKeeps(Run(s, log), later);
    forall o | o in again ensures Settled(Run(Run(s, log), later), o) {
      SettledStays(Run(s, log), Run(Run(s, log), later), o);
    }
    SettledRunIsNoOp(Run(Run(s, log), later), again);
  }

  // ---- what the replay answers

  lemma PurgeReplayAnswers(s: State, table: string, purgeId: string, now: nat, ops: seq<Op>)
    requires PurgeTable(s, table, purgeId).1.Ok? && forall o | o in ops :: !o.OpDropTable?
    ensures var t := Run(Step(s, OpPurge(table, purgeId, now)), ops);
            PurgeTable(t, table, purgeId) == (t, Ok(PurgeOutcome(PurgeTable(s, table, purgeId).1.value.snapshot, 0, 0)))
  {
    RunKeeps(Step(s, OpPurge(table, purgeId, now)), ops);
  }

  lemma {:induction false} RefusalSpec(files: map<string, File>, entries: seq<Dv>)
    ensures FirstRefusal(files, entries).None? <==>
            forall d | d in entries ::
              d.dvId != "" && d.table != "" && d.path != "" && d.card != 0 && !AnchorDead(files, d)
  {
    if entries != [] {
      RefusalSpec(files, entries[1..]);
      assert entries == [entries[0]] + entries[1..];
    }
  }

  /** The anchor check precedes the duplicate check: a replayed DELETE never changes the state, and
      reports success exactly while all its anchors are alive. */
  lemma DeleteReplayAnswers(s: State, entries: seq<Dv>, now: nat, ops: seq<Op>)
    requires ApplyDeletions(s, entries).1.Ok? && forall o | o in ops :: !o.OpDropTable?
    ensures var t := Run(Step(s, OpApplyDeletions(entries, now)), ops);
            && ApplyDeletions(t, entries).0 == t
            && (ApplyDeletions(t, entries).1 == Ok(t.data.snapshot) <==>
                forall d | d in entries :: !AnchorDead(t.data.files, d))
            && (ApplyDeletions(t, entries).1 == Err(AnchorGone) <==>
                exists d :: d in entries && AnchorDead(t.data.files, d))
  {
    var t := Run(Step(s, OpApplyDeletions(entries, now)), ops);
    ReplayIsNoOp(s, OpApplyDeletions(entries, now), ops);
    RefusalSpec(s.data.files, entries);
    RefusalSpec(t.data.files, entries);
    WhyRefused(t.data.files, entries);
    SuccessSettles(s, OpApplyDeletions(entries, now));
    RunKeeps(Step(s, OpApplyDeletions(entries, now)), ops);
    NothingFreshDvs(t.data.dvs, entries);
  }

  lemma {:induction false} WhyRefused(files: map<string, File>, entries: seq<Dv>)
    requires forall d | d in entries :: d.dvId != "" && d.table != "" && d.path != "" && d.card != 0
    ensures FirstRefusal(files, entries) in {None, Some(AnchorGone)}
  {
    if entries != [] { WhyRefused(files, entries[1..]); }
  }

  // ---- an update enters at one snapshot

  lemma UpdateIsAtomic(s: State, entries: seq<Dv>, newFiles: seq<File>, updId: string, now: nat)
    requires ApplyUpdate(s, entries, newFiles, updId, now).1.Ok?
    ensures var t := ApplyUpdate(s, entries, newFiles, updId, now).0;
            && HasFiles(t.data.files, newFiles) && HasDvs(t.data.dvs, entries)
            && (forall b | b in t.data.files && b !in s.data.files :: t.data.files[b].validFrom == s.data.snapshot + 1)
            && (forall k | k in t.data.dvs && k !in s.data.dvs ::
                  t.data.dvs[k].appliedAt == s.data.snapshot + 1 && t.data.dvs[k].revokedAt == 0)
            && (forall b | b in s.data.files :: b in t.data.files && t.data.files[b] == s.data.files[b])
            && (forall k | k in s.data.dvs :: k in t.data.dvs && t.data.dvs[k] == s.data.dvs[k])
  {
    UpdateSettles(s, OpApplyUpdate(entries, newFiles, updId, now));
    UpdateAdds(s.data, entries, newFiles);
  }

  lemma UpdateAdds(d: Data, entries: seq<Dv>, newFiles: seq<File>)
    ensures var e := DataUpdate(d, FreshFiles(d.files, newFiles), FreshDvs(d.dvs, entries));
            && (forall b | b in e.files && b !in d.files :: e.files[b].validFrom == d.snapshot + 1)
            && (forall k | k in e.dvs && k !in d.dvs :: e.dvs[k].appliedAt == d.snapshot + 1 && e.dvs[k].revokedAt == 0)
            && (forall b | b in d.files :: b in e.files && e.files[b] == d.files[b])
            && (forall k | k in d.dvs :: k in e.dvs && e.dvs[k] == d.dvs[k])
  {
    UpdateAddsFiles(d.files, newFiles, d.snapshot + 1);
    UpdateAddsDvs(d.dvs, entries, d.snapshot + 1);
  }

  lemma UpdateAddsFiles(files: map<string, File>, newFiles: seq<File>, next: nat)
    ensures var e := AddFiles(files, FreshFiles(files, newFiles), next);
            && (forall b | b in e && b !in files :: e[b].validFrom == next)
            && (forall b | b in files :: b in e && e[b] == files[b])
  {
    FreshFilesSpec(files, newFiles);
    AddFilesSpec(files, FreshFiles(files, newFiles), next);
  }

  lemma UpdateAddsDvs(dvs: map<(string, string), Dv>, entries: seq<Dv>, next: nat)
    ensures var e := AddDvs(dvs, FreshDvs(dvs, entries), next);
            && (forall k | k in e && k !in dvs :: e[k].appliedAt == next && e[k].revokedAt == 0)
            && (forall k | k in dvs :: k in e && e[k] == dvs[k])
  {
    FreshDvsSpec(dvs, entries);
    AddDvsSpec(dvs, FreshDvs(dvs, entries), next);
  }
}

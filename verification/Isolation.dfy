/** Snapshot isolation: what a reader at an old snapshot sees does not depend on later operations. */
module Isolation {
  import opened CatalogModel
  import opened CatalogOps
  import opened Evolution

  /** The files a reader of `table` sees at snapshot `at`. Whether a tombstone for a later snapshot
      has been written meanwhile is not part of what the reader sees. */
  function Seen(d: Data, table: string, at: nat): map<string, File> {
    map b | b in d.files && d.files[b].table == table && d.files[b].VisibleAt(at) :: d.files[b].(deletedAt := 0)
  }

  /** The deletion vectors listed for `table` at snapshot `at`, without their revocation mark. */
  function Listed(d: Data, table: string, at: nat): map<(string, string), Dv> {
    map k | k in d.dvs && d.dvs[k].table == table && d.dvs[k].ActiveAt(at) :: d.dvs[k].(revokedAt := 0)
  }

  predicate SeenPath(d: Data, table: string, at: nat, path: string) {
    exists b :: b in d.files && d.files[b].table == table && d.files[b].VisibleAt(at) && d.files[b].path == path
  }

  /** The listed deletion vectors that hit a file the reader sees. */
  function Effective(d: Data, table: string, at: nat): map<(string, string), Dv> {
    map k | k in Listed(d, table, at) && SeenPath(d, table, at, k.1) :: Listed(d, table, at)[k]
  }

  /** No table is dropped and no compaction product takes the identifier of an existing file. */
  ghost predicate Additive(s: State, ops: seq<Op>)
    decreases |ops|
  {
    ops == [] || (!ops[0].OpDropTable? && Overwritten(s.data.files, ops[0]) == {}
        && Additive(Step(s, ops[0]), ops[1..]))
  }

  // ---- files

  lemma SeenUnchanged(d: Data, e: Data, live: bool, table: string, at: nat)
    requires FilesAdvance(d, e, {}, live) && at <= d.snapshot
    ensures Seen(e, table, at) == Seen(d, table, at)
  {
  }

  lemma {:induction false} FilesIsolated(s: State, ops: seq<Op>, table: string, at: nat)
    requires Additive(s, ops) && at <= s.data.snapshot
    ensures Seen(Run(s, ops).data, table, at) == Seen(s.data, table, at)
    decreases |ops|
  {
    if ops != [] {
      var next := Step(s, ops[0]);
      StepAdvances(s, ops[0]);
      SeenUnchanged(s.data, next.data, WellFormed(ops[0]), table, at);
      FilesIsolated(next, ops[1..], table, at);
    }
  }

  // ---- deletion vectors

  /** A revocation that takes effect at a snapshot not after `at` and hits a vector active there. */
  ghost predicate Unlists(d: Data, op: Op, table: string, at: nat) {
    && op.OpRevoke? && 0 < op.at <= at
    && exists k :: k in d.dvs && d.dvs[k].path == op.path && d.dvs[k].table == table
                   && d.dvs[k].revokedAt == 0 && d.dvs[k].appliedAt <= at
  }

  lemma ListedUnchanged(d: Data, e: Data, op: Op, table: string, at: nat)
    requires DvsAdvance(d, e, op) && at <= d.snapshot && !Unlists(d, op, table, at)
    ensures Listed(e, table, at) == Listed(d, table, at)
  {
    var l, m := Listed(d, table, at), Listed(e, table, at);
    forall k | k in d.dvs ensures k in l <==> k in m {
      assert DvAdvances(d.dvs[k], e.dvs[k], d.snapshot, e.snapshot, op);
    }
    forall k | k in l ensures l[k] == m[k] {
      assert DvAdvances(d.dvs[k], e.dvs[k], d.snapshot, e.snapshot, op);
    }
    assert l.Keys == m.Keys;
  }

  lemma RevokeUnlists(s: State, op: Op, table: string, at: nat)
    requires Unlists(s.data, op, table, at)
    ensures Listed(Step(s, op).data, table, at) != Listed(s.data, table, at)
  {
    var k :| k in s.data.dvs && s.data.dvs[k].path == op.path && s.data.dvs[k].table == table
             && s.data.dvs[k].revokedAt == 0 && s.data.dvs[k].appliedAt <= at;
    assert k in DvsOfPath(s.data.dvs, op.path);
    assert k in Listed(s.data, table, at) && k !in Listed(Step(s, op).data, table, at);
  }

  /** Exactly the back-dated revocations change what is listed at a snapshot already reached. */
  lemma ListedChangesOnlyByRevoke(s: State, op: Op, table: string, at: nat)
    requires !op.OpDropTable? && at <= s.data.snapshot
    ensures Listed(Step(s, op).data, table, at) != Listed(s.data, table, at) <==> Unlists(s.data, op, table, at)
  {
    if Unlists(s.data, op, table, at) {
      RevokeUnlists(s, op, table, at);
    } else {
      StepAdvances(s, op);
      ListedUnchanged(s.data, Step(s, op).data, op, table, at);
    }
  }

  // ---- what the reader computes from both

  /** The file has left every snapshot from `op.at` on before its vectors are revoked there. */
  ghost predicate TidyRevoke(d: Data, op: Op) {
    op.OpRevoke? && op.at != 0 ==>
      forall b | b in d.files && d.files[b].path == op.path :: 0 < d.files[b].deletedAt <= op.at
  }

  ghost predicate TidyRevokes(s: State, ops: seq<Op>)
    decreases |ops|
  {
    ops == [] || (TidyRevoke(s.data, ops[0]) && TidyRevokes(Step(s, ops[0]), ops[1..]))
  }

  ghost predicate KeysMatch(dvs: map<(string, string), Dv>) {
    forall k | k in dvs :: dvs[k].Key() == k
  }

  lemma SeenPathUnchanged(d: Data, e: Data, live: bool, table: string, at: nat, path: string)
    requires FilesAdvance(d, e, {}, live) && at <= d.snapshot
    ensures SeenPath(e, table, at, path) == SeenPath(d, table, at, path)
  {
    if SeenPath(d, table, at, path) {
      var b :| b in d.files && d.files[b].table == table && d.files[b].VisibleAt(at) && d.files[b].path == path;
      assert FileAdvances(d.files[b], e.files[b], b, d.snapshot, e.snapshot, false, live);
      assert e.files[b].table == table && e.files[b].VisibleAt(at) && e.files[b].path == path;
    }
    if SeenPath(e, table, at, path) {
      var b :| b in e.files && e.files[b].table == table && e.files[b].VisibleAt(at) && e.files[b].path == path;
      assert b in d.files && FileAdvances(d.files[b], e.files[b], b, d.snapshot, e.snapshot, false, live);
    }
  }

  lemma SeenVectorKept(d: Data, e: Data, op: Op, table: string, at: nat, k: (string, string))
    requires k in d.dvs && k in e.dvs && d.dvs[k].Key() == k && at <= d.snapshot
    requires DvAdvances(d.dvs[k], e.dvs[k], d.snapshot, e.snapshot, op)
    requires TidyRevoke(d, op) && SeenPath(d, table, at, k.1)
    ensures e.dvs[k].ActiveAt(at) == d.dvs[k].ActiveAt(at)
  {
    var b :| b in d.files && d.files[b].table == table && d.files[b].VisibleAt(at) && d.files[b].path == k.1;
  }

  lemma EffectiveVectorKept(d: Data, e: Data, op: Op, table: string, at: nat, k: (string, string))
    requires Advances(d, e, op) && Overwritten(d.files, op) == {} && at <= d.snapshot
    requires KeysMatch(d.dvs) && TidyRevoke(d, op) && k in d.dvs
    ensures k in Effective(d, table, at) <==> k in Effective(e, table, at)
    ensures k in Effective(d, table, at) ==> Effective(d, table, at)[k] == Effective(e, table, at)[k]
  {
    SeenPathUnchanged(d, e, WellFormed(op), table, at, k.1);
    assert DvAdvances(d.dvs[k], e.dvs[k], d.snapshot, e.snapshot, op);
    if SeenPath(d, table, at, k.1) { SeenVectorKept(d, e, op, table, at, k); }
  }

  lemma SameEntries<K, V>(l: map<K, V>, m: map<K, V>, keys: set<K>)
    requires l.Keys <= keys && m.Keys <= keys
    requires forall k | k in keys :: (k in l <==> k in m) && (k in l ==> l[k] == m[k])
    ensures l == m
  {
    assert forall k :: k in l.Keys <==> k in m.Keys;
  }

  lemma EffectiveUnchanged(d: Data, e: Data, op: Op, table: string, at: nat)
    requires Advances(d, e, op) && Overwritten(d.files, op) == {} && at <= d.snapshot
    requires KeysMatch(d.dvs) && TidyRevoke(d, op)
    ensures Effective(e, table, at) == Effective(d, table, at)
  {
    forall k | k in d.dvs
      ensures k in Effective(d, table, at) <==> k in Effective(e, table, at)
      ensures k in Effective(d, table, at) ==> Effective(d, table, at)[k] == Effective(e, table, at)[k]
    {
      EffectiveVectorKept(d, e, op, table, at, k);
    }
    SameEntries(Effective(d, table, at), Effective(e, table, at), d.dvs.Keys);
  }

  lemma {:induction false} EffectiveIsolated(s: State, ops: seq<Op>, table: string, at: nat)
    requires Additive(s, ops) && TidyRevokes(s, ops) && at <= s.data.snapshot && Valid(s)
    requires forall op | op in ops :: WellFormed(op)
    ensures Effective(Run(s, ops).data, table, at) == Effective(s.data, table, at)
    decreases |ops|
  {
    if ops != [] {
      var next := Step(s, ops[0]);
      StepAdvances(s, ops[0]);
      StepValid(s, ops[0]);
      EffectiveUnchanged(s.data, next.data, ops[0], table, at);
      EffectiveIsolated(next, ops[1..], table, at);
    }
  }
}

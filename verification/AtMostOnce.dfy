/** Each client key and each batch identifier is accepted for at most one batch. */
module AtMostOnce {
  import opened CatalogModel
  import opened CatalogOps
  import opened Evolution

  /** No table is dropped, no key expires, and no update uses one of `keys` as its identifier. */
  ghost predicate Keeping(ops: seq<Op>, keys: seq<string>) {
    forall op | op in ops ::
      && !op.OpDropTable? && !op.OpSweepIdem?
      && (op.OpApplyUpdate? && op.updId in keys ==> op.updId == "")
  }

  /** Every one of the keys is bound to `batchId`. */
  ghost predicate Bound(idem: map<string, Idem>, keys: seq<string>, batchId: string) {
    forall k | k in keys :: k in idem && idem[k].batchId == batchId
  }

  lemma CommitBinds(idem: map<string, Idem>, req: CommitRequest, now: nat)
    ensures Bound(idem + Claims(req, now), req.Keys(), req.batchId)
  {
  }

  lemma CommitKeepsBound(idem: map<string, Idem>, keys: seq<string>, batchId: string, req: CommitRequest, now: nat)
    requires Bound(idem, keys, batchId) && batchId != "" && !KeyTaken(idem, req.Keys(), req.batchId)
    ensures Bound(idem + Claims(req, now), keys, batchId)
  {
  }

  lemma StepKeepsBound(s: State, op: Op, keys: seq<string>, batchId: string)
    requires Bound(s.idem, keys, batchId) && batchId != "" && Keeping([op], keys)
    ensures Bound(Step(s, op).idem, keys, batchId)
  {
    assert op in [op];
    if op.OpCommitFiles? && CommitAccepted(s, op.req) {
      CommitKeepsBound(s.idem, keys, batchId, op.req, op.now);
    }
  }

  lemma {:induction false} RunKeepsBound(s: State, ops: seq<Op>, keys: seq<string>, batchId: string)
    requires Bound(s.idem, keys, batchId) && batchId != "" && Keeping(ops, keys)
    ensures Bound(Run(s, ops).idem, keys, batchId)
    decreases |ops|
  {
    if ops != [] {
      StepKeepsBound(s, ops[0], keys, batchId);
      RunKeepsBound(Step(s, ops[0]), ops[1..], keys, batchId);
    }
  }

  lemma {:induction false} RunKeepsFile(s: State, ops: seq<Op>, b: string)
    requires b in s.data.files && forall op | op in ops :: !op.OpDropTable?
    ensures b in Run(s, ops).data.files
    decreases |ops|
  {
    if ops != [] {
      StepAdvances(s, ops[0]);
      RunKeepsFile(Step(s, ops[0]), ops[1..], b);
    }
  }

  /** After a commit was accepted, a later accepted commit of another batch shares no client key with it, and if the
      first one had a file, the later one is of another batch. */
  lemma AcceptedOnce(s: State, first: CommitRequest, now: nat, ops: seq<Op>, second: CommitRequest)
    requires CommitAccepted(s, first) && first.batchId != "" && Keeping(ops, first.Keys())
    requires CommitAccepted(Run(Step(s, OpCommitFiles(first, now)), ops), second)
    ensures second.batchId != first.batchId ==> forall k | k in first.Keys() :: k !in second.Keys()
    ensures first.files != [] ==> second.batchId != first.batchId
  {
    var t := Step(s, OpCommitFiles(first, now));
    CommitBinds(s.idem, first, now);
    RunKeepsBound(t, ops, first.Keys(), first.batchId);
    if first.files != [] { RunKeepsFile(t, ops, first.batchId); }
  }

  /** The same commit, sent again after any such run, is accepted again exactly if its batch is no file: never if it had
      one, and a commit without files again and again. */
  lemma ReplayAcceptedIff(s: State, req: CommitRequest, now: nat, ops: seq<Op>)
    requires CommitAccepted(s, req) && req.batchId != "" && Keeping(ops, req.Keys())
    ensures var t := Run(Step(s, OpCommitFiles(req, now)), ops);
            && (CommitAccepted(t, req) <==> req.batchId !in t.data.files)
            && (req.files != [] ==> req.batchId in t.data.files)
  {
    var t := Step(s, OpCommitFiles(req, now));
    CommitBinds(s.idem, req, now);
    RunKeepsBound(t, ops, req.Keys(), req.batchId);
    if req.files != [] { RunKeepsFile(t, ops, req.batchId); }
  }

  // ---------------------------------------------------------------- why a commit is refused

  ghost predicate BoundAt(s: State, key: string, batchId: string) {
    key in s.idem && s.idem[key].batchId == batchId
  }

  /** An accepted commit of the batch declares the key, or a record with the batch is the first for the key. */
  ghost predicate Binds(s: State, op: Op, key: string, batchId: string) {
    || (op.OpCommitFiles? && CommitAccepted(s, op.req) && key in op.req.Keys() && op.req.batchId == batchId)
    || (op.OpRecordIdem? && op.rec.key == key && op.rec.batchId == batchId && key !in s.idem)
  }

  /** An accepted update uses the key as its identifier, or the key is old enough to expire. */
  ghost predicate Unbinds(s: State, op: Op, key: string) {
    || (op.OpApplyUpdate? && op.updId == key && key != "" && Step(s, op).data.snapshot != s.data.snapshot)
    || (op.OpSweepIdem? && key in s.idem && SatSub(op.now, s.idem[key].committedAt) >= op.ttl)
  }

  lemma OneStepBinds(s: State, op: Op, key: string, batchId: string)
    requires batchId != ""
    ensures BoundAt(Step(s, op), key, batchId)
            <==> Binds(s, op, key, batchId) || (BoundAt(s, key, batchId) && !Unbinds(s, op, key))
  {
    match op {
      case OpCommitFiles(req, now) => CommitBindsIff(s, req, now, key, batchId);
      case OpApplyUpdate(entries, newFiles, updId, now) => UpdateBindsIff(s, op, key, batchId);
      case _ =>
    }
  }

  lemma CommitBindsIff(s: State, req: CommitRequest, now: nat, key: string, batchId: string)
    requires batchId != ""
    ensures var op := OpCommitFiles(req, now);
            BoundAt(Step(s, op), key, batchId) <==> Binds(s, op, key, batchId) || BoundAt(s, key, batchId)
  {
    if CommitAccepted(s, req) && key in req.Keys() && BoundAt(s, key, batchId) { assert req.batchId == batchId; }
  }

  lemma UpdateBindsIff(s: State, op: Op, key: string, batchId: string)
    requires batchId != "" && op.OpApplyUpdate?
    ensures BoundAt(Step(s, op), key, batchId) <==> BoundAt(s, key, batchId) && !Unbinds(s, op, key)
  {
  }

  /** The state after the first `n` operations from the empty catalog. */
  ghost function After(ops: seq<Op>, n: nat): State
    requires n <= |ops|
  {
    Run(Initial(), ops[..n])
  }

  lemma AfterNext(ops: seq<Op>, n: nat)
    requires n < |ops|
    ensures After(ops, n + 1) == Step(After(ops, n), ops[n])
  {
    assert ops[..n + 1] == ops[..n] + [ops[n]];
    RunConcat(Initial(), ops[..n], [ops[n]]);
    assert [ops[n]][1..] == [];
    assert Run(After(ops, n), [ops[n]]) == Run(Step(After(ops, n), ops[n]), []);
  }

  /** Operation `i` bound the key, and none before `n` has unbound it since. */
  ghost predicate BoundSince(ops: seq<Op>, n: nat, i: nat, key: string, batchId: string)
    requires n <= |ops|
  {
    && i < n && Binds(After(ops, i), ops[i], key, batchId)
    && forall j: nat | i < j < n :: !Unbinds(After(ops, j), ops[j], key)
  }

  lemma {:induction false} BoundIff(ops: seq<Op>, n: nat, key: string, batchId: string)
    requires n <= |ops| && batchId != ""
    ensures BoundAt(After(ops, n), key, batchId) <==> exists i: nat :: BoundSince(ops, n, i, key, batchId)
    decreases n
  {
    if n == 0 {
      assert ops[..0] == [];
    } else {
      var m := n - 1;
      BoundIff(ops, m, key, batchId);
      AfterNext(ops, m);
      OneStepBinds(After(ops, m), ops[m], key, batchId);
      if Binds(After(ops, m), ops[m], key, batchId) {
        assert BoundSince(ops, n, m, key, batchId);
      } else {
        forall i: nat ensures BoundSince(ops, n, i, key, batchId)
            <==> BoundSince(ops, m, i, key, batchId) && !Unbinds(After(ops, m), ops[m], key) {
        }
      }
    }
  }

  /** In every run a commit of a new batch is refused if and only if one of its keys was bound to another batch, by an
      accepted commit or by a record, and neither an expiry nor an update has unbound it since. Claims without a batch
      never count. */
  lemma RefusedIff(ops: seq<Op>, req: CommitRequest)
    requires |req.files| <= 1 && req.batchId !in After(ops, |ops|).data.files
    ensures CommitFiles(After(ops, |ops|), req, 0).1.Ok?
    ensures !CommitFiles(After(ops, |ops|), req, 0).1.value.accepted <==>
            exists key, batchId, i: nat ::
              key in req.Keys() && batchId != "" && batchId != req.batchId && BoundSince(ops, |ops|, i, key, batchId)
  {
    var n, s := |ops|, After(ops, |ops|);
    if KeyTaken(s.idem, req.Keys(), req.batchId) {
      var key :| key in req.Keys() && key in s.idem && s.idem[key].batchId != "" && s.idem[key].batchId != req.batchId;
      BoundIff(ops, n, key, s.idem[key].batchId);
    }
    if key, batchId, i: nat :|
      key in req.Keys() && batchId != "" && batchId != req.batchId && BoundSince(ops, n, i, key, batchId) {
      BoundIff(ops, n, key, batchId);
    }
  }
}

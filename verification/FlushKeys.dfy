/** The client keys a flush declares. They are derived from the log, for the whole interval of its chunk. */
module FlushKeys {
  import opened CatalogModel
  import opened CatalogOps
  import opened WalLog

  /** The client keys of all rows in the interval, whatever group they belong to. */
  function KeysIn(log: seq<Record>, from: nat, to: nat): set<string> {
    set q | from <= q < to && q < |log| && log[q].Rows? && log[q].client != "" :: log[q].client
  }

  method CollectKeys(log: seq<Record>, from: nat, to: nat) returns (keys: set<string>)
    requires from <= to <= |log|
    ensures keys == KeysIn(log, from, to)
  {
    keys := {};
    for q := from to to
      invariant keys == KeysIn(log, from, q)
    {
      var r := log[q];
      if r.Rows? && r.client != "" { keys := keys + {r.client}; }
      OneMoreRow(log, from, q);
    }
  }

  lemma OneMoreRow(log: seq<Record>, from: nat, q: nat)
    requires from <= q < |log|
    ensures KeysIn(log, from, q + 1)
            == KeysIn(log, from, q) + if log[q].Rows? && log[q].client != "" then {log[q].client} else {}
  {
    forall k | k in KeysIn(log, from, q + 1) && k !in KeysIn(log, from, q)
      ensures log[q].Rows? && log[q].client != "" && k == log[q].client
    {
      var p :| from <= p < q + 1 && p < |log| && log[p].Rows? && log[p].client != "" && log[p].client == k;
      assert p == q;
    }
    forall k | k in KeysIn(log, from, q) ensures k in KeysIn(log, from, q + 1) {
      var p :| from <= p < q && p < |log| && log[p].Rows? && log[p].client != "" && log[p].client == k;
    }
  }

  ghost predicate Declares(req: CommitRequest, keys: set<string>) {
    req.clientKey.None? && forall k :: k in req.clientKeys <==> k in keys
  }

  /** After one flush was accepted, a second one that was acceptable before still is, if and only if no row with a
      client key lies in both intervals. Since the keys are not filtered by group, two groups whose rows
      alternate in the log can shut each other out. */
  lemma SecondFlushAcceptedIff(s: State, log: seq<Record>, first: CommitRequest, a: nat, b: nat, now: nat,
                               second: CommitRequest, c: nat, d: nat)
    requires Declares(first, KeysIn(log, a, b)) && Declares(second, KeysIn(log, c, d))
    requires CommitAccepted(s, first) && first.files != [] && first.batchId != ""
    requires CommitAccepted(s, second) && second.batchId != first.batchId
    ensures CommitAccepted(Step(s, OpCommitFiles(first, now)), second) <==> KeysIn(log, a, b) !! KeysIn(log, c, d)
  {
    var t := Step(s, OpCommitFiles(first, now));
    assert first.Keys() == first.clientKeys && second.Keys() == second.clientKeys;
    assert t.idem == s.idem + Claims(first, now);
    if KeyTaken(t.idem, second.Keys(), second.batchId) {
      var k :| k in second.Keys() && k in t.idem && t.idem[k].batchId != "" && t.idem[k].batchId != second.batchId;
      assert k in KeysIn(log, a, b) && k in KeysIn(log, c, d);
    }
    if k :| k in KeysIn(log, a, b) && k in KeysIn(log, c, d) {
      assert k in second.Keys() && k in t.idem && t.idem[k].batchId == first.batchId;
    }
  }
}

/** The start of a server on an empty catalog: the client keys are indexed from the log and the batches committed again,
    on the catalog itself. The files that get in are those of the accepted batches. */
module Restart {
  import opened CatalogModel
  import opened CatalogOps
  import opened CatalogClass
  import opened WalLog
  import opened FlushKeys
  import opened WalRecovery
  import Strings

  // ---------------------------------------------------------------- indexing the client keys

  function Reindexed(idem: map<string, Idem>, log: seq<Record>, n: nat, now: nat): map<string, Idem>
    requires n <= |log|
  {
    if n == 0 then idem
    else
      var m, r := Reindexed(idem, log, n - 1, now), log[n - 1];
      if r.Rows? && r.client != "" then RecordIdem(m, Idem(r.client, "", now)) else m
  }

  method Reindex(catalog: CatalogState, log: seq<Record>, now: nat)
    modifies catalog`idem
    ensures catalog.idem == Reindexed(old(catalog.idem), log, |log|, now)
  {
    for i := 0 to |log|
      invariant catalog.idem == Reindexed(old(catalog.idem), log, i, now)
    {
      var r := log[i];
      if r.Rows? && r.client != "" { catalog.RecordIdempotency(Idem(r.client, "", now)); }
    }
  }

  /** Every key is claimed, none is bound to a batch. */
  predicate OnlyClaims(idem: map<string, Idem>) {
    forall k | k in idem :: idem[k].batchId == ""
  }

  lemma {:induction false} ReindexedClaims(idem: map<string, Idem>, log: seq<Record>, n: nat, now: nat)
    requires n <= |log| && OnlyClaims(idem)
    ensures OnlyClaims(Reindexed(idem, log, n, now))
  {
    if n > 0 { ReindexedClaims(idem, log, n - 1, now); }
  }

  // ---------------------------------------------------------------- committing the batches again

  /** The object is named after the batch; its rows and sizes do not matter here. */
  function FileOf(b: Batch): File {
    File(b.id, b.id, b.key.table, b.key.shard, b.key.window, 0, 0, 0, "", 0, 0)
  }

  function Request(b: Batch, keys: seq<string>): CommitRequest {
    CommitRequest(b.key.table, b.id, None, keys, b.key.shard, b.key.window, [FileOf(b)], 0)
  }

  ghost function RequestOf(log: seq<Record>, b: Batch): CommitRequest {
    Request(b, Strings.Listing(KeysOf(log, b)))
  }

  /** A pending batch is announced before its object is written. */
  ghost function CommitAgain(s: State, log: seq<Record>, b: Batch, now: nat): State {
    if !Recovered(log, b) then s
    else CommitFiles(if b.pending then s.(inFlight := RecordInFlight(s.inFlight, b.id, now)) else s,
                     RequestOf(log, b), now).0
  }

  ghost function Recommitted(s: State, log: seq<Record>, batches: seq<Batch>, n: nat, now: nat): State
    requires n <= |batches|
  {
    if n == 0 then s else CommitAgain(Recommitted(s, log, batches, n - 1, now), log, batches[n - 1], now)
  }

  method RecommitOne(catalog: CatalogState, log: seq<Record>, b: Batch, now: nat)
    requires b.start <= b.end <= |log| && Recovered(log, b)
    modifies catalog
    ensures catalog.StateView() == CommitAgain(old(catalog.StateView()), log, b, now)
  {
    if b.pending { catalog.RecordInFlight(b.id, now); }
    var keys := CollectKeys(log, b.start, b.end);
    var list := Sorted(keys);
    var _ := catalog.CommitFiles(Request(b, list), now);
  }

  /** One pass over the batches. The answers of the catalog are not looked at: every recovered batch is claimed. */
  method Resume(catalog: CatalogState, log: seq<Record>, batches: seq<Batch>, now: nat) returns (claims: seq<Claim>)
    requires forall b | b in batches :: b.start <= b.end <= |log|
    modifies catalog
    ensures var s := old(catalog.StateView());
            catalog.StateView() == Recommitted(s.(idem := Reindexed(s.idem, log, |log|, now)), log, batches, |batches|,
                now)
    ensures forall c :: c in claims <==> exists b :: b in batches && Recovered(log, b) && c == ClaimOf(log, b)
  {
    Reindex(catalog, log, now);
    claims := [];
    ghost var s := catalog.StateView();
    for i := 0 to |batches|
      invariant catalog.StateView() == Recommitted(s, log, batches, i, now)
      invariant forall c :: c in claims <==> exists b :: b in batches[..i] && Recovered(log, b) && c == ClaimOf(log, b)
    {
      var b := batches[i];
      assert batches[..i + 1] == batches[..i] + [b];
      if b.pending && RedoRows(log, b) == {} { continue; }
      if !Passes(log, b) { continue; }
      RecommitOne(catalog, log, b, now);
      claims := claims + [ClaimOf(log, b)];
    }
    assert batches[..|batches|] == batches;
  }

  // ---------------------------------------------------------------- which files get in

  function Accepted(log: seq<Record>, batches: seq<Batch>, n: nat): set<nat>
    requires n <= |batches|
  {
    set i | 0 <= i < n && Accepts(log, batches, i)
  }

  /** The live files of exactly the batches in `among`. */
  ghost predicate FilesAre(files: map<string, File>, batches: seq<Batch>, among: set<nat>)
    requires forall i | i in among :: i < |batches|
  {
    && (forall i | i in among ::
          var b := batches[i]; b.id in files && files[b.id].deletedAt == 0 && files[b.id].table == b.key.table)
    && (forall f | f in files :: exists i :: i in among && batches[i].id == f)
  }

  /** A key is bound exactly to the batch in `among` that declared it. */
  ghost predicate BoundTo(idem: map<string, Idem>, log: seq<Record>, batches: seq<Batch>, among: set<nat>)
    requires forall i | i in among :: i < |batches|
  {
    && (forall k | k in idem && idem[k].batchId != "" ::
          exists i :: i in among && k in KeysOf(log, batches[i]) && idem[k].batchId == batches[i].id)
    && (forall i, k | i in among && k in KeysOf(log, batches[i]) :: k in idem && idem[k].batchId == batches[i].id)
  }

  ghost predicate Filed(s: State, t: State, log: seq<Record>, batches: seq<Batch>, among: set<nat>)
    requires forall i | i in among :: i < |batches|
  {
    && FilesAre(t.data.files, batches, among) && BoundTo(t.idem, log, batches, among)
    && t.data.dvs == s.data.dvs && t.purged == s.purged
  }

  lemma KeysListed(log: seq<Record>, b: Batch)
    ensures var req := RequestOf(log, b);
            (forall k :: k in req.Keys() <==> k in KeysOf(log, b)) && req.batchId == b.id && |req.files| == 1
  {
    Strings.ListingSpec(KeysOf(log, b));
    var req := RequestOf(log, b);
    assert req.Keys() == req.clientKeys + [];
  }

  /** A batch not among them is accepted exactly if it shares no key with one of them. */
  lemma AcceptedIff(s: State, t: State, log: seq<Record>, batches: seq<Batch>, among: set<nat>, n: nat)
    requires n < |batches| && n !in among && (forall i | i in among :: i < |batches|)
    requires Filed(s, t, log, batches, among) && DistinctIds(batches)
    ensures CommitAccepted(t, RequestOf(log, batches[n]))
            <==> forall i | i in among :: KeysOf(log, batches[i]) !! KeysOf(log, batches[n])
  {
    var b := batches[n];
    KeysListed(log, b);
    assert b.id !in t.data.files;
    var keys := RequestOf(log, b).Keys();
    if KeyTaken(t.idem, keys, b.id) {
      var k :| k in keys && k in t.idem && t.idem[k].batchId != "" && t.idem[k].batchId != b.id;
      var i :| i in among && k in KeysOf(log, batches[i]) && t.idem[k].batchId == batches[i].id;
    }
    forall i | i in among && !KeyTaken(t.idem, keys, b.id) ensures KeysOf(log, batches[i]) !! KeysOf(log, b) {
      forall k | k in KeysOf(log, batches[i]) ensures k !in KeysOf(log, b) {
        assert t.idem[k].batchId == batches[i].id && batches[i].id != b.id;
      }
    }
  }

  lemma AcceptedStep(log: seq<Record>, batches: seq<Batch>, n: nat)
    requires n < |batches|
    ensures Accepted(log, batches, n + 1) == Accepted(log, batches, n) + if Accepts(log, batches, n) then {n} else {}
    ensures Accepts(log, batches, n) <==>
            Recovered(log, batches[n]) && forall i | i in Accepted(log, batches, n)
                :: KeysOf(log, batches[i]) !! KeysOf(log, batches[n])
  {
  }

  lemma OneMoreFile(files: map<string, File>, batches: seq<Batch>, among: set<nat>, n: nat, f: File)
    requires n < |batches| && (forall i | i in among :: i < n) && FilesAre(files, batches, among)
             && DistinctIds(batches)
    requires f.deletedAt == 0 && f.table == batches[n].key.table
    ensures FilesAre(files[batches[n].id := f], batches, among + {n})
  {
    var m := files[batches[n].id := f];
    forall g | g in m ensures exists i :: i in among + {n} && batches[i].id == g {
      if g == batches[n].id {
        assert n in among + {n};
      } else {
        var i :| i in among && batches[i].id == g;
        assert i in among + {n};
      }
    }
  }

  lemma OneMoreBound(idem: map<string, Idem>, log: seq<Record>, batches: seq<Batch>, among: set<nat>, n: nat,
                     claims: map<string, Idem>)
    requires n < |batches| && (forall i | i in among :: i < n) && BoundTo(idem, log, batches, among)
    requires forall i | i in among :: KeysOf(log, batches[i]) !! KeysOf(log, batches[n])
    requires claims.Keys == KeysOf(log, batches[n]) && forall k | k in claims :: claims[k].batchId == batches[n].id
    ensures BoundTo(idem + claims, log, batches, among + {n})
  {
    var m := idem + claims;
    forall k | k in m && m[k].batchId != ""
      ensures exists i :: i in among + {n} && k in KeysOf(log, batches[i]) && m[k].batchId == batches[i].id
    {
      if k in claims {
        assert n in among + {n};
      } else {
        var i :| i in among && k in KeysOf(log, batches[i]) && idem[k].batchId == batches[i].id;
        assert i in among + {n};
      }
    }
  }

  lemma AcceptedFiled(s: State, t: State, log: seq<Record>, batches: seq<Batch>, among: set<nat>, n: nat, now: nat)
    requires n < |batches| && (forall i | i in among :: i < n) && Filed(s, t, log, batches, among)
             && DistinctIds(batches)
    requires CommitAccepted(t, RequestOf(log, batches[n]))
    requires forall i | i in among :: KeysOf(log, batches[i]) !! KeysOf(log, batches[n])
    ensures Filed(s, CommitFiles(t, RequestOf(log, batches[n]), now).0, log, batches, among + {n})
  {
    var req := RequestOf(log, batches[n]);
    KeysListed(log, batches[n]);
    OneMoreFile(t.data.files, batches, among, n, req.Stamp(req.files[0], t.data.snapshot + 1));
    OneMoreBound(t.idem, log, batches, among, n, CatalogOps.Claims(req, now));
  }

  lemma Decision(s: State, t: State, log: seq<Record>, batches: seq<Batch>, n: nat)
    requires n < |batches| && Filed(s, t, log, batches, Accepted(log, batches, n)) && DistinctIds(batches)
             && Recovered(log, batches[n])
    ensures var among := Accepted(log, batches, n);
            if CommitAccepted(t, RequestOf(log, batches[n]))
            then Accepted(log, batches, n + 1) == among + {n}
                && forall i | i in among :: KeysOf(log, batches[i]) !! KeysOf(log, batches[n])
            else Accepted(log, batches, n + 1) == among
  {
    AcceptedStep(log, batches, n);
    AcceptedIff(s, t, log, batches, Accepted(log, batches, n), n);
  }

  lemma RefusedFiled(s: State, t: State, log: seq<Record>, batches: seq<Batch>, among: set<nat>, n: nat, now: nat)
    requires n < |batches| && (forall i | i in among :: i < n) && Filed(s, t, log, batches, among)
    requires !CommitAccepted(t, RequestOf(log, batches[n]))
    ensures Filed(s, CommitFiles(t, RequestOf(log, batches[n]), now).0, log, batches, among)
  {
    KeysListed(log, batches[n]);
  }

  lemma CommitFiled(s: State, t: State, log: seq<Record>, batches: seq<Batch>, n: nat, now: nat)
    requires n < |batches| && Filed(s, t, log, batches, Accepted(log, batches, n)) && DistinctIds(batches)
             && Recovered(log, batches[n])
    ensures Filed(s, CommitFiles(t, RequestOf(log, batches[n]), now).0, log, batches, Accepted(log, batches, n + 1))
  {
    Decision(s, t, log, batches, n);
    if CommitAccepted(t, RequestOf(log, batches[n])) {
      AcceptedFiled(s, t, log, batches, Accepted(log, batches, n), n, now);
    } else {
      RefusedFiled(s, t, log, batches, Accepted(log, batches, n), n, now);
    }
  }

  lemma FiledEither(s: State, t: State, v: State, log: seq<Record>, batches: seq<Batch>, among: set<nat>)
    requires (forall i | i in among :: i < |batches|) && Filed(s, t, log, batches, among)
    requires v.data == t.data && v.idem == t.idem && v.purged == t.purged
    ensures Filed(s, v, log, batches, among)
  {
  }

  lemma CommitAgainFiles(s: State, t: State, log: seq<Record>, batches: seq<Batch>, n: nat, now: nat)
    requires n < |batches| && Filed(s, t, log, batches, Accepted(log, batches, n)) && DistinctIds(batches)
    ensures Filed(s, CommitAgain(t, log, batches[n], now), log, batches, Accepted(log, batches, n + 1))
  {
    var b := batches[n];
    if Recovered(log, b) {
      var v := if b.pending then t.(inFlight := RecordInFlight(t.inFlight, b.id, now)) else t;
      FiledEither(s, t, v, log, batches, Accepted(log, batches, n));
      CommitFiled(s, v, log, batches, n, now);
    } else {
      AcceptedStep(log, batches, n);
    }
  }

  ghost predicate FiledUpTo(s: State, log: seq<Record>, batches: seq<Batch>, n: nat, now: nat)
    requires n <= |batches|
  {
    Filed(s, Recommitted(s, log, batches, n, now), log, batches, Accepted(log, batches, n))
  }

  lemma OneMoreFiled(s: State, log: seq<Record>, batches: seq<Batch>, n: nat, now: nat)
    requires n < |batches| && DistinctIds(batches) && FiledUpTo(s, log, batches, n, now)
    ensures FiledUpTo(s, log, batches, n + 1, now)
  {
    var t := Recommitted(s, log, batches, n, now);
    CommitAgainFiles(s, t, log, batches, n, now);
    assert Recommitted(s, log, batches, n + 1, now) == CommitAgain(t, log, batches[n], now);
  }

  lemma NothingFiledYet(s: State, log: seq<Record>, batches: seq<Batch>, now: nat)
    requires s.data.files == map[] && OnlyClaims(s.idem)
    ensures FiledUpTo(s, log, batches, 0, now)
  {
    assert Accepted(log, batches, 0) == {};
  }

  /** On an empty catalog exactly the files of the accepted batches get in, and nothing else. */
  lemma RecommittedFiles(s: State, log: seq<Record>, batches: seq<Batch>, n: nat, now: nat)
    requires n <= |batches| && DistinctIds(batches) && FiledUpTo(s, log, batches, 0, now)
    ensures FiledUpTo(s, log, batches, n, now)
  {
    for i := 0 to n
      invariant FiledUpTo(s, log, batches, i, now)
    {
      OneMoreFiled(s, log, batches, i, now);
    }
  }

  /** The catalog after the start, from an empty one. */
  ghost function Started(d: Disk, now: nat): State {
    var s := Initial();
    Recommitted(s.(idem := Reindexed(s.idem, d.log, |d.log|, now)), d.log, d.batches, |d.batches|, now)
  }

  lemma StartedFiles(d: Disk, now: nat)
    requires DistinctIds(d.batches)
    ensures Filed(Initial(), Started(d, now), d.log, d.batches, Accepted(d.log, d.batches, |d.batches|))
  {
    var s := Initial().(idem := Reindexed(map[], d.log, |d.log|, now));
    ReindexedClaims(map[], d.log, |d.log|, now);
    NothingFiledYet(s, d.log, d.batches, now);
    RecommittedFiles(s, d.log, d.batches, |d.batches|, now);
  }

  /** After a start a batch is in the catalog exactly if it is accepted, so that the files with a row of an earlier run
      are those that were counted. */
  lemma StartedIff(d: Disk, now: nat, i: nat, q: nat)
    requires DistinctIds(d.batches) && i < |d.batches|
    ensures d.batches[i].id in Started(d, now).data.files <==> Accepts(d.log, d.batches, i)
    ensures i in Owners(d, q) <==> d.batches[i].id in Started(d, now).data.files && q in FileRows(d.log, d.batches[i])
  {
    var among := Accepted(d.log, d.batches, |d.batches|);
    StartedFiles(d, now);
    assert i in among <==> Accepts(d.log, d.batches, i);
    if d.batches[i].id in Started(d, now).data.files {
      var j :| j in among && d.batches[j].id == d.batches[i].id;
    }
  }
}

/** Merging the files of a shard. Applying the deletion vectors, writing the merged file, committing it
    and then revoking the vectors file by file never changes what a reader sees at any snapshot. */
module Compaction {
  import opened CatalogModel
  import opened CatalogOps
  import opened TaskFidelity
  import opened Deletion
  import opened Sums

  /** The immutable objects: the record batches of each data file and the positions in each bitmap. */
  datatype Objects = Objects(batches: map<string, seq<seq<Row>>>, bits: map<string, set<nat>>)
  {
    function Rows(path: string): seq<Row> {
      if path in batches then Flatten(batches[path]) else []
    }

    function Positions(dv: Dv): set<nat> {
      if dv.storePath in bits then bits[dv.storePath] else {}
    }
  }

  // ---------------------------------------------------------------- what a reader sees

  function ActiveOn(d: Data, table: string, at: nat, path: string): set<(string, string)> {
    set k | k in d.dvs && d.dvs[k].table == table && d.dvs[k].ActiveAt(at) && d.dvs[k].path == path
  }

  function Union(o: Objects, dvs: map<(string, string), Dv>, keys: set<(string, string)>): set<nat> {
    set k, p | k in keys && k in dvs && p in o.Positions(dvs[k]) :: p
  }

  /** The union of the deletion vectors of `path` that are active at `at`. */
  function DeletedAt(o: Objects, d: Data, table: string, at: nat, path: string): set<nat> {
    Union(o, d.dvs, ActiveOn(d, table, at, path))
  }

  function Shown(o: Objects, d: Data, table: string, at: nat, path: string): multiset<Row> {
    multiset(Keep(o.Rows(path), DeletedAt(o, d, table, at, path), 0))
  }

  function ShownFiles(o: Objects, d: Data, table: string, at: nat, ids: set<string>): map<string, multiset<Row>> {
    map b | b in ids && b in d.files :: Shown(o, d, table, at, d.files[b].path)
  }

  function VisibleIds(d: Data, table: string, at: nat): set<string> {
    set b | b in d.files && d.files[b].table == table && d.files[b].VisibleAt(at)
  }

  /** The rows of `table` at snapshot `at`. Merged rows are re-sorted, so their order is not part of the view. */
  ghost function View(o: Objects, d: Data, table: string, at: nat): multiset<Row> {
    Bag(ShownFiles(o, d, table, at, VisibleIds(d, table, at)))
  }

  // ---------------------------------------------------------------- the merge

  /** `olds` are live files of one table. The product is a new file holding what a reader at `read` sees of them. */
  ghost predicate MergedAt(o: Objects, d: Data, read: nat, table: string, olds: seq<string>, product: File) {
    && read <= d.snapshot
    && (forall b | b in olds :: b in d.files && d.files[b].table == table && d.files[b].deletedAt == 0)
    && product.table == table && product.deletedAt == 0 && product.batchId !in d.files
    && (forall k | k in d.dvs :: d.dvs[k].path != product.path)
    && (forall b | b in d.files :: d.files[b].path != product.path)
    && multiset(o.Rows(product.path)) == Bag(ShownFiles(o, d, table, read, Ids(olds)))
  }

  /** And no vector on them was applied or revoked since. */
  ghost predicate Merges(o: Objects, d: Data, read: nat, table: string, olds: seq<string>, product: File) {
    && MergedAt(o, d, read, table, olds, product)
    && (forall b | b in olds ::
          DeletedAt(o, d, table, read, d.files[b].path) == DeletedAt(o, d, table, d.snapshot, d.files[b].path))
  }

  /** The vectors of the given paths are revoked one path after the other. */
  function RevokeAll(d: Data, paths: seq<string>, at: nat): Data
    decreases |paths|
  {
    if paths == [] then d else RevokeAll(DataRevoke(d, paths[0], at), paths[1..], at)
  }

  function InputPaths(d: Data, olds: seq<string>): set<string> {
    set b | b in olds && b in d.files :: d.files[b].path
  }

  ghost predicate PathsOf(d: Data, olds: seq<string>, paths: seq<string>) {
    forall p | p in paths :: p in InputPaths(d, olds)
  }

  /** From `d` to `e`: `olds` entombed at the new snapshot, `product` added, and vectors of the inputs
      possibly revoked at the new snapshot. Every state between commit and last revocation is like this. */
  ghost predicate Swapped(d: Data, e: Data, olds: seq<string>, product: File) {
    && e.files.Keys == d.files.Keys + {product.batchId}
    && e.files[product.batchId] == product.(validFrom := d.snapshot + 1)
    && (forall b | b in d.files && b != product.batchId ::
          e.files[b] == if b in olds then d.files[b].(deletedAt := d.snapshot + 1) else d.files[b])
    && e.dvs.Keys == d.dvs.Keys
    && (forall k | k in d.dvs ::
          e.dvs[k] == d.dvs[k]
          || (d.dvs[k].revokedAt == 0 && e.dvs[k] == d.dvs[k].(revokedAt := d.snapshot + 1)
              && d.dvs[k].path in InputPaths(d, olds)))
  }

  lemma SwapIsSwapped(d: Data, olds: seq<string>, product: File)
    requires product.batchId !in d.files
    ensures Swapped(d, DataSwap(d, olds, [product]), olds, product)
  {
    var mid := Entomb(d.files, Ids(olds), d.snapshot + 1);
    assert DataSwap(d, olds, [product]).files == mid[product.batchId := product.(validFrom := d.snapshot + 1)] by {
      assert [product][1..] == [];
      assert AddFiles(mid[product.batchId := product.(validFrom := d.snapshot + 1)], [], d.snapshot + 1)
             == mid[product.batchId := product.(validFrom := d.snapshot + 1)];
    }
  }

  lemma RevokeStaysSwapped(d: Data, e: Data, olds: seq<string>, product: File, path: string)
    requires Swapped(d, e, olds, product) && PathsOf(d, olds, [path])
    ensures Swapped(d, DataRevoke(e, path, d.snapshot + 1), olds, product)
  {
    assert path in [path];
  }

  lemma {:induction false} RevokesStaySwapped(d: Data, e: Data, olds: seq<string>, product: File, paths: seq<string>)
    requires Swapped(d, e, olds, product) && PathsOf(d, olds, paths)
    ensures Swapped(d, RevokeAll(e, paths, d.snapshot + 1), olds, product)
    decreases |paths|
  {
    if paths != [] {
      assert paths == [paths[0]] + paths[1..];
      RevokeStaysSwapped(d, e, olds, product, paths[0]);
      RevokesStaySwapped(d, DataRevoke(e, paths[0], d.snapshot + 1), olds, product, paths[1..]);
    }
  }

  // ---------------------------------------------------------------- old snapshots

  lemma SameUnion(o: Objects, a: map<(string, string), Dv>, b: map<(string, string), Dv>, keys: set<(string, string)>)
    requires keys <= a.Keys && keys <= b.Keys && forall k | k in keys :: a[k].storePath == b[k].storePath
    ensures Union(o, a, keys) == Union(o, b, keys)
  {
    forall p | p in Union(o, a, keys) ensures p in Union(o, b, keys) {
      var k :| k in keys && k in a && p in o.Positions(a[k]);
      assert p in o.Positions(b[k]);
    }
    forall p | p in Union(o, b, keys) ensures p in Union(o, a, keys) {
      var k :| k in keys && k in b && p in o.Positions(b[k]);
      assert p in o.Positions(a[k]);
    }
  }

  lemma OldDeleted(o: Objects, d: Data, e: Data, olds: seq<string>, product: File, table: string, at: nat, path: string)
    requires Swapped(d, e, olds, product) && at <= d.snapshot
    ensures DeletedAt(o, e, table, at, path) == DeletedAt(o, d, table, at, path)
  {
    assert ActiveOn(e, table, at, path) == ActiveOn(d, table, at, path);
    SameUnion(o, e.dvs, d.dvs, ActiveOn(d, table, at, path));
  }

  lemma OldVisible(d: Data, e: Data, olds: seq<string>, product: File, table: string, at: nat)
    requires Swapped(d, e, olds, product) && at <= d.snapshot && product.batchId !in d.files
    requires forall b | b in olds :: b in d.files && d.files[b].deletedAt == 0
    ensures VisibleIds(e, table, at) == VisibleIds(d, table, at)
    ensures forall b | b in d.files :: e.files[b].path == d.files[b].path
  {
  }

  lemma SameShownFiles(o: Objects, d: Data, e: Data, table: string, before: nat, after: nat, ids: set<string>)
    requires ids <= d.files.Keys && ids <= e.files.Keys
    requires forall b | b in ids ::
               Shown(o, e, table, after, e.files[b].path) == Shown(o, d, table, before, d.files[b].path)
    ensures ShownFiles(o, e, table, after, ids) == ShownFiles(o, d, table, before, ids)
  {
  }

  lemma OldView(o: Objects, d: Data, e: Data, olds: seq<string>, product: File, table: string, at: nat)
    requires Swapped(d, e, olds, product) && at <= d.snapshot && product.batchId !in d.files
    requires forall b | b in olds :: b in d.files && d.files[b].deletedAt == 0
    ensures View(o, e, table, at) == View(o, d, table, at)
  {
    OldVisible(d, e, olds, product, table, at);
    forall b | b in VisibleIds(d, table, at)
      ensures Shown(o, e, table, at, e.files[b].path) == Shown(o, d, table, at, d.files[b].path)
    {
      OldDeleted(o, d, e, olds, product, table, at, d.files[b].path);
    }
    SameShownFiles(o, d, e, table, at, at, VisibleIds(d, table, at));
  }

  // ---------------------------------------------------------------- new snapshots

  lemma NewDeleted(o: Objects, d: Data, e: Data, olds: seq<string>, product: File, table: string, at: nat, path: string)
    requires Swapped(d, e, olds, product) && Clean(d) && at > d.snapshot
    requires forall b | b in olds && b in d.files :: d.files[b].path != path
    ensures DeletedAt(o, e, table, at, path) == DeletedAt(o, d, table, d.snapshot, path)
  {
    assert ActiveOn(e, table, at, path) == ActiveOn(d, table, d.snapshot, path);
    SameUnion(o, e.dvs, d.dvs, ActiveOn(d, table, d.snapshot, path));
  }

  lemma NewVisible(d: Data, e: Data, olds: seq<string>, product: File, table: string, at: nat)
    requires Swapped(d, e, olds, product) && Clean(d) && at > d.snapshot
    requires product.table == table && product.deletedAt == 0 && product.batchId !in d.files
    ensures VisibleIds(e, table, at) == VisibleIds(d, table, d.snapshot) - Ids(olds) + {product.batchId}
  {
    forall b | b in d.files
      ensures b in VisibleIds(e, table, at) <==> b in VisibleIds(d, table, d.snapshot) && b !in olds {
    }
  }

  lemma KeptFiles(o: Objects, d: Data, e: Data, olds: seq<string>, product: File, table: string, at: nat,
                  ids: set<string>)
    requires Swapped(d, e, olds, product) && Clean(d) && at > d.snapshot && product.batchId !in d.files
    requires ids <= d.files.Keys && forall b | b in ids :: b !in olds
    ensures ShownFiles(o, e, table, at, ids) == ShownFiles(o, d, table, d.snapshot, ids)
  {
    forall b | b in ids ensures Shown(o, e, table, at, e.files[b].path)
        == Shown(o, d, table, d.snapshot, d.files[b].path) {
      NewDeleted(o, d, e, olds, product, table, at, d.files[b].path);
    }
    SameShownFiles(o, d, e, table, d.snapshot, at, ids);
  }

  lemma ProductShown(o: Objects, d: Data, e: Data, olds: seq<string>, product: File, table: string, at: nat)
    requires Swapped(d, e, olds, product) && forall k | k in d.dvs :: d.dvs[k].path != product.path
    ensures Shown(o, e, table, at, product.path) == multiset(o.Rows(product.path))
  {
    assert ActiveOn(e, table, at, product.path) == {};
    assert Union(o, e.dvs, {}) == {};
    KeepAll(o.Rows(product.path), {}, 0);
  }

  lemma SplitFiles(o: Objects, d: Data, table: string, at: nat, ids: set<string>, more: set<string>)
    requires ids !! more
    ensures Bag(ShownFiles(o, d, table, at, ids + more)) == Bag(ShownFiles(o, d, table, at, ids))
            + Bag(ShownFiles(o, d, table, at, more))
  {
    ShownJoin(o, d, table, at, ids, more);
    BagJoin(ShownFiles(o, d, table, at, ids), ShownFiles(o, d, table, at, more));
  }

  lemma ShownJoin(o: Objects, d: Data, table: string, at: nat, ids: set<string>, more: set<string>)
    ensures ShownFiles(o, d, table, at, ids + more) == ShownFiles(o, d, table, at, ids)
            + ShownFiles(o, d, table, at, more)
  {
  }

  lemma InputsShown(o: Objects, d: Data, read: nat, table: string, olds: seq<string>, product: File)
    requires Merges(o, d, read, table, olds, product)
    ensures ShownFiles(o, d, table, d.snapshot, Ids(olds)) == ShownFiles(o, d, table, read, Ids(olds))
  {
    forall b | b in Ids(olds) ensures Shown(o, d, table, d.snapshot, d.files[b].path)
        == Shown(o, d, table, read, d.files[b].path) {
      assert b in olds;
    }
    SameShownFiles(o, d, d, table, read, d.snapshot, Ids(olds));
  }

  lemma ProductBag(o: Objects, e: Data, table: string, at: nat, b: string)
    requires b in e.files
    ensures Bag(ShownFiles(o, e, table, at, {b})) == Shown(o, e, table, at, e.files[b].path)
  {
    var m := ShownFiles(o, e, table, at, {b});
    BagTake(m, b);
    assert m - {b} == map[];
  }

  lemma ViewAfter(o: Objects, d: Data, e: Data, olds: seq<string>, product: File, table: string, at: nat)
    requires Swapped(d, e, olds, product) && Clean(d) && at > d.snapshot
    requires product.table == table && product.deletedAt == 0 && product.batchId !in d.files
    requires forall k | k in d.dvs :: d.dvs[k].path != product.path
    ensures View(o, e, table, at)
            == Bag(ShownFiles(o, d, table, d.snapshot, VisibleIds(d, table, d.snapshot) - Ids(olds)))
               + multiset(o.Rows(product.path))
  {
    var kept := VisibleIds(d, table, d.snapshot) - Ids(olds);
    NewVisible(d, e, olds, product, table, at);
    SplitFiles(o, e, table, at, kept, {product.batchId});
    KeptFiles(o, d, e, olds, product, table, at, kept);
    ProductBag(o, e, table, at, product.batchId);
    ProductShown(o, d, e, olds, product, table, at);
  }

  lemma ViewBefore(o: Objects, d: Data, olds: seq<string>, table: string)
    requires forall b | b in olds :: b in VisibleIds(d, table, d.snapshot)
    ensures View(o, d, table, d.snapshot)
            == Bag(ShownFiles(o, d, table, d.snapshot, VisibleIds(d, table, d.snapshot) - Ids(olds)))
               + Bag(ShownFiles(o, d, table, d.snapshot, Ids(olds)))
  {
    var all := VisibleIds(d, table, d.snapshot);
    SplitFiles(o, d, table, d.snapshot, all - Ids(olds), Ids(olds));
    assert (all - Ids(olds)) + Ids(olds) == all;
  }

  lemma NewView(o: Objects, d: Data, e: Data, read: nat, table: string, olds: seq<string>, product: File, at: nat)
    requires Merges(o, d, read, table, olds, product) && Swapped(d, e, olds, product) && Clean(d) && at > d.snapshot
    ensures View(o, e, table, at) == View(o, d, table, d.snapshot)
  {
    ViewAfter(o, d, e, olds, product, table, at);
    ViewBefore(o, d, olds, table);
    InputsShown(o, d, read, table, olds, product);
  }

  // ---------------------------------------------------------------- other tables, and the theorem

  lemma OtherView(o: Objects, d: Data, e: Data, olds: seq<string>, product: File, table: string, at: nat)
    requires Swapped(d, e, olds, product) && Clean(d) && at > d.snapshot && product.batchId !in d.files
    requires product.table != table && forall b | b in olds :: b in d.files && d.files[b].table == product.table
    ensures View(o, e, table, at) == View(o, d, table, d.snapshot)
  {
    assert VisibleIds(e, table, at) == VisibleIds(d, table, d.snapshot);
    KeptFiles(o, d, e, olds, product, table, at, VisibleIds(d, table, d.snapshot));
  }

  /** In every state from the commit to the last revocation, every table looks at every earlier snapshot
      as it did, and at every snapshot from the new one on as it looked just before the commit. */
  lemma CompactionKeepsMeaning(o: Objects, d: Data, read: nat, olds: seq<string>, product: File, paths: seq<string>,
                               table: string, at: nat)
    requires Clean(d) && Merges(o, d, read, product.table, olds, product) && PathsOf(d, olds, paths)
    ensures var e := RevokeAll(DataSwap(d, olds, [product]), paths, d.snapshot + 1);
            View(o, e, table, at) == View(o, d, table, if at <= d.snapshot then at else d.snapshot)
  {
    var e := RevokeAll(DataSwap(d, olds, [product]), paths, d.snapshot + 1);
    SwapIsSwapped(d, olds, product);
    RevokesStaySwapped(d, DataSwap(d, olds, [product]), olds, product, paths);
    if at <= d.snapshot {
      OldView(o, d, e, olds, product, table, at);
    } else if table == product.table {
      NewView(o, d, e, read, table, olds, product, at);
    } else {
      OtherView(o, d, e, olds, product, table, at);
    }
  }

  // ---------------------------------------------------------------- the state machine does just that

  function Revocations(paths: seq<string>, at: nat, now: nat): seq<Op>
    decreases |paths|
  {
    if paths == [] then [] else [OpRevoke(paths[0], at, now)] + Revocations(paths[1..], at, now)
  }

  lemma {:induction false} RevokesOfState(s: State, paths: seq<string>, at: nat, now: nat)
    ensures Run(s, Revocations(paths, at, now)).data == RevokeAll(s.data, paths, at)
    decreases |paths|
  {
    if paths != [] {
      RevokeStep(s, paths[0], at, now);
      RevokesOfState(Step(s, OpRevoke(paths[0], at, now)), paths[1..], at, now);
    }
  }

  lemma RevokeStep(s: State, path: string, at: nat, now: nat)
    ensures Step(s, OpRevoke(path, at, now)).data == DataRevoke(s.data, path, at)
  {
    if DvsOfPath(s.data.dvs, path) == {} { assert RevokeKeys(s.data.dvs, {}, at) == s.data.dvs; }
  }

  lemma CommitStep(s: State, olds: seq<string>, product: File, epoch: nat, purpose: string, n: nat)
    requires CommitCompaction(s, olds, [product], epoch, purpose).1 == Ok(n)
    ensures n == s.data.snapshot + 1
    ensures Step(s, OpCommitCompaction(olds, [product], epoch, purpose)).data == DataSwap(s.data, olds, [product])
  {
  }

  /** The commit of a merge, then the revocations of its inputs at the snapshot the commit answered. */
  ghost function CompactionRun(s: State, olds: seq<string>, product: File, epoch: nat, purpose: string,
                               paths: seq<string>,
                               n: nat, now: nat): State
  {
    Run(Step(s, OpCommitCompaction(olds, [product], epoch, purpose)), Revocations(paths, n, now))
  }

  lemma CompactionRunData(s: State, olds: seq<string>, product: File, epoch: nat, purpose: string, paths: seq<string>,
                          n: nat, now: nat)
    requires CommitCompaction(s, olds, [product], epoch, purpose).1 == Ok(n)
    ensures n == s.data.snapshot + 1
    ensures CompactionRun(s, olds, product, epoch, purpose, paths, n, now).data
            == RevokeAll(DataSwap(s.data, olds, [product]), paths, n)
  {
    CommitStep(s, olds, product, epoch, purpose, n);
    RevokesOfState(Step(s, OpCommitCompaction(olds, [product], epoch, purpose)), paths, n, now);
  }

  /** The same, for the operations of the catalog: a commit that is accepted, then the revocations. */
  lemma CompactionRunKeepsMeaning(o: Objects, s: State, read: nat, olds: seq<string>, product: File, epoch: nat,
                                  purpose: string,
                                  n: nat, paths: seq<string>, now: nat, table: string, at: nat)
    requires Clean(s.data) && Merges(o, s.data, read, product.table, olds, product) && PathsOf(s.data, olds, paths)
    requires CommitCompaction(s, olds, [product], epoch, purpose).1 == Ok(n)
    ensures View(o, CompactionRun(s, olds, product, epoch, purpose, paths, n, now).data, table, at)
            == View(o, s.data, table, if at < n then at else s.data.snapshot)
  {
    CompactionRunData(s, olds, product, epoch, purpose, paths, n, now);
    CompactionKeepsMeaning(o, s.data, read, olds, product, paths, table, at);
  }
}

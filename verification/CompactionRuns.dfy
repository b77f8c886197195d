/** Compaction among other operations: whatever happens between the commit of a merge and its last revocation, and what
    a deletion that slips in between reading the inputs and committing the merge does. */
module CompactionRuns {
  import opened CatalogModel
  import opened CatalogOps
  import opened Evolution
  import opened Isolation
  import opened TaskFidelity
  import opened Deletion
  import opened Compaction
  import opened Sums

  // ---------------------------------------------------------------- a view is isolated

  lemma VisibleIsSeen(d: Data, table: string, at: nat)
    ensures VisibleIds(d, table, at) == Seen(d, table, at).Keys
  {
  }

  lemma ActiveIsEffective(d: Data, table: string, at: nat, path: string)
    requires KeysMatch(d.dvs) && SeenPath(d, table, at, path)
    ensures ActiveOn(d, table, at, path) == set k | k in Effective(d, table, at) && k.1 == path
  {
    forall k | k in ActiveOn(d, table, at, path) ensures k in Effective(d, table, at) && k.1 == path {
      assert d.dvs[k].Key() == k;
    }
    forall k | k in Effective(d, table, at) && k.1 == path ensures k in ActiveOn(d, table, at, path) {
      assert d.dvs[k].Key() == k;
    }
  }

  lemma SameDeleted(o: Objects, d: Data, e: Data, table: string, at: nat, path: string)
    requires KeysMatch(d.dvs) && KeysMatch(e.dvs) && SeenPath(d, table, at, path) && SeenPath(e, table, at, path)
    requires Effective(d, table, at) == Effective(e, table, at)
    ensures DeletedAt(o, d, table, at, path) == DeletedAt(o, e, table, at, path)
  {
    ActiveIsEffective(d, table, at, path);
    ActiveIsEffective(e, table, at, path);
    var keys := ActiveOn(d, table, at, path);
    forall k | k in keys ensures d.dvs[k].storePath == e.dvs[k].storePath {
      assert Effective(d, table, at)[k] == Effective(e, table, at)[k];
    }
    SameUnion(o, d.dvs, e.dvs, keys);
  }

  /** What a reader sees depends on the files it sees and the vectors that hit them, and on nothing else. */
  lemma ViewSame(o: Objects, d: Data, e: Data, table: string, at: nat)
    requires KeysMatch(d.dvs) && KeysMatch(e.dvs)
    requires Seen(d, table, at) == Seen(e, table, at) && Effective(d, table, at) == Effective(e, table, at)
    ensures View(o, d, table, at) == View(o, e, table, at)
  {
    VisibleIsSeen(d, table, at);
    VisibleIsSeen(e, table, at);
    forall b | b in VisibleIds(d, table, at)
      ensures b in e.files && Shown(o, e, table, at, e.files[b].path) == Shown(o, d, table, at, d.files[b].path)
    {
      SamePath(d, e, table, at, b);
      SameDeleted(o, d, e, table, at, d.files[b].path);
    }
    SameShownFiles(o, d, e, table, at, at, VisibleIds(d, table, at));
  }

  lemma SamePath(d: Data, e: Data, table: string, at: nat, b: string)
    requires Seen(d, table, at) == Seen(e, table, at) && b in VisibleIds(d, table, at)
    ensures b in e.files && e.files[b].path == d.files[b].path
    ensures SeenPath(d, table, at, d.files[b].path) && SeenPath(e, table, at, d.files[b].path)
  {
    assert b in Seen(d, table, at) && Seen(d, table, at)[b] == Seen(e, table, at)[b];
  }

  /** Over any run the rows at a snapshot already reached stay the same. */
  lemma ViewIsolated(o: Objects, s: State, ops: seq<Op>, table: string, at: nat)
    requires Additive(s, ops) && TidyRevokes(s, ops) && at <= s.data.snapshot && Valid(s)
    requires forall op | op in ops :: WellFormed(op)
    ensures View(o, Run(s, ops).data, table, at) == View(o, s.data, table, at)
  {
    RunValid(s, ops);
    FilesIsolated(s, ops, table, at);
    EffectiveIsolated(s, ops, table, at);
    ViewSame(o, Run(s, ops).data, s.data, table, at);
  }

  // ---------------------------------------------------------------- a merge among other operations

  /** A merge is committed; any operations follow, the revocations of its inputs among them. Every table looks at every
      earlier snapshot as it did, and at the new one as it looked just before the commit. */
  lemma CompactionAmongOthers(o: Objects, s: State, read: nat, olds: seq<string>, product: File, epoch: nat,
                              purpose: string,
                              n: nat, later: seq<Op>, table: string, at: nat)
    requires Valid(s) && Clean(s.data) && Merges(o, s.data, read, product.table, olds, product)
    requires CommitCompaction(s, olds, [product], epoch, purpose).1 == Ok(n)
    requires var t := Step(s, OpCommitCompaction(olds, [product], epoch, purpose));
             Additive(t, later) && TidyRevokes(t, later)
    requires (forall op | op in later :: WellFormed(op)) && at <= n
    ensures View(o, Run(Step(s, OpCommitCompaction(olds, [product], epoch, purpose)), later).data, table, at)
            == View(o, s.data, table, if at < n then at else s.data.snapshot)
  {
    var op := OpCommitCompaction(olds, [product], epoch, purpose);
    StepValid(s, op);
    CommitStep(s, olds, product, epoch, purpose, n);
    CompactionRunKeepsMeaning(o, s, read, olds, product, epoch, purpose, n, [], 0, table, at);
    ViewIsolated(o, Step(s, op), later, table, at);
  }

  /** The files of a path are all gone at `n`. */
  ghost predicate GoneBy(d: Data, path: string, n: nat) {
    forall b | b in d.files && d.files[b].path == path :: 0 < d.files[b].deletedAt <= n
  }

  /** The revocations of a merge are tidy whenever they come: the inputs are gone at the snapshot of the merge, and stay
      so while no other file takes their paths. */
  lemma InputsStayGone(s: State, later: seq<Op>, path: string, n: nat)
    requires GoneBy(s.data, path, n) && Additive(s, later)
    requires forall b | b in Run(s, later).data.files && Run(s, later).data.files[b].path == path :: b in s.data.files
    ensures GoneBy(Run(s, later).data, path, n)
    ensures forall now :: TidyRevoke(Run(s, later).data, OpRevoke(path, n, now))
  {
    forall b | b in Run(s, later).data.files && Run(s, later).data.files[b].path == path
      ensures 0 < Run(s, later).data.files[b].deletedAt <= n
    {
      FileStays(s, later, b);
    }
  }

  lemma {:induction false} FileStays(s: State, later: seq<Op>, b: string)
    requires Additive(s, later) && b in s.data.files
    ensures b in Run(s, later).data.files
    ensures var f, g := s.data.files[b], Run(s, later).data.files[b];
            g.path == f.path && (f.deletedAt != 0 ==> g.deletedAt == f.deletedAt)
    decreases |later|
  {
    if later != [] {
      var t := Step(s, later[0]);
      StepAdvances(s, later[0]);
      assert FileAdvances(s.data.files[b], t.data.files[b], b, s.data.snapshot, t.data.snapshot, false,
             WellFormed(later[0]));
      FileStays(t, later[1..], b);
    }
  }

  // ---------------------------------------------------------------- a deletion that slips in

  function Head(rows: seq<Row>, deleted: set<nat>, offset: nat): seq<Row>
    requires rows != []
  {
    if offset in deleted then [] else [rows[0]]
  }

  lemma KeepSplits(rows: seq<Row>, deleted: set<nat>, offset: nat)
    requires rows != []
    ensures multiset(Keep(rows, deleted, offset)) == multiset(Head(rows, deleted, offset))
            + multiset(Keep(rows[1..], deleted, offset + 1))
  {
  }

  /** A row of the stream that `b` deletes and `a` does not. */
  ghost predicate Hits(a: set<nat>, b: set<nat>, offset: nat, size: nat) {
    exists p :: p in b && p !in a && offset <= p < offset + size
  }

  /** Deleting more keeps fewer rows, and as many only if no row is hit. */
  lemma {:induction false} KeepLess(rows: seq<Row>, a: set<nat>, b: set<nat>, offset: nat)
    requires a <= b
    ensures multiset(Keep(rows, b, offset)) <= multiset(Keep(rows, a, offset))
    ensures multiset(Keep(rows, b, offset)) == multiset(Keep(rows, a, offset)) <==> !Hits(a, b, offset, |rows|)
    decreases |rows|
  {
    if rows != [] {
      KeepSplits(rows, a, offset);
      KeepSplits(rows, b, offset);
      KeepLess(rows[1..], a, b, offset + 1);
      HitsSplits(a, b, offset, |rows|);
      Heads(multiset(Keep(rows[1..], a, offset + 1)), multiset(Keep(rows[1..], b, offset + 1)), rows[0]);
    }
  }

  lemma HitsSplits(a: set<nat>, b: set<nat>, offset: nat, size: nat)
    requires size > 0
    ensures Hits(a, b, offset, size) <==> (offset in b && offset !in a) || Hits(a, b, offset + 1, size - 1)
  {
  }

  lemma Heads(m: multiset<Row>, n: multiset<Row>, r: Row)
    requires n <= m
    ensures n <= multiset{r} + m && n != multiset{r} + m
    ensures multiset{r} + n == multiset{r} + m <==> n == m
  {
    assert n[r] < (multiset{r} + m)[r];
    if multiset{r} + n == multiset{r} + m {
      assert n == (multiset{r} + n) - multiset{r} && m == (multiset{r} + m) - multiset{r};
    }
  }

  /** A bag of smaller parts is smaller, and equal only if all its parts are. */
  lemma {:induction false} BagLess<K>(a: map<K, multiset<Row>>, b: map<K, multiset<Row>>)
    requires a.Keys == b.Keys && forall k | k in a :: a[k] <= b[k]
    ensures Bag(a) <= Bag(b) && (Bag(a) == Bag(b) <==> a == b)
    decreases a.Keys
  {
    if a != map[] {
      var k :| k in a;
      BagTake(a, k);
      BagTake(b, k);
      BagLess(a - {k}, b - {k});
      Parts(a[k], Bag(a - {k}), b[k], Bag(b - {k}));
      SameButOne(a, b, k);
    } else {
      assert b == map[];
    }
  }

  lemma SameButOne<K>(a: map<K, multiset<Row>>, b: map<K, multiset<Row>>, k: K)
    requires k in a && k in b
    ensures a == b <==> a[k] == b[k] && a - {k} == b - {k}
  {
    assert a == (a - {k})[k := a[k]] && b == (b - {k})[k := b[k]];
  }

  lemma Parts(a: multiset<Row>, m: multiset<Row>, b: multiset<Row>, n: multiset<Row>)
    requires a <= b && m <= n
    ensures a + m <= b + n && (a + m == b + n <==> a == b && m == n)
  {
    if a + m == b + n {
      forall r: Row ensures a[r] == b[r] && m[r] == n[r] {
        assert (a + m)[r] == (b + n)[r];
      }
    }
  }

  /** Some vector that took effect after the inputs were read, and before the merge was committed, deletes a row of
      one. */
  ghost predicate LateDeletion(o: Objects, d: Data, read: nat, table: string, olds: seq<string>) {
    exists b :: b in olds && b in d.files &&
      Hits(DeletedAt(o, d, table, read, d.files[b].path), DeletedAt(o, d, table, d.snapshot, d.files[b].path), 0,
          |o.Rows(d.files[b].path)|)
  }

  lemma InputsEqualIff(o: Objects, d: Data, read: nat, table: string, olds: seq<string>)
    requires forall b | b in olds :: b in d.files
    requires forall b | b in olds ::
               DeletedAt(o, d, table, read, d.files[b].path) <= DeletedAt(o, d, table, d.snapshot, d.files[b].path)
    ensures Bag(ShownFiles(o, d, table, d.snapshot, Ids(olds))) == Bag(ShownFiles(o, d, table, read, Ids(olds)))
            <==> !LateDeletion(o, d, read, table, olds)
  {
    var now, before := ShownFiles(o, d, table, d.snapshot, Ids(olds)), ShownFiles(o, d, table, read, Ids(olds));
    forall b | b in now
      ensures now[b] <= before[b]
      ensures now[b] == before[b] <==>
              !Hits(DeletedAt(o, d, table, read, d.files[b].path), DeletedAt(o, d, table, d.snapshot, d.files[b].path),
                  0, |o.Rows(d.files[b].path)|)
    {
      KeepLess(o.Rows(d.files[b].path), DeletedAt(o, d, table, read, d.files[b].path),
          DeletedAt(o, d, table, d.snapshot, d.files[b].path), 0);
    }
    BagLess(now, before);
  }

  /** The inputs are read before the lease is taken. If no vector on them is revoked meanwhile, the merge keeps the
      meaning of its table from the new snapshot on if and only if no deletion that slipped in hits one of their
      rows. */
  lemma MergeRightIff(o: Objects, d: Data, read: nat, olds: seq<string>, product: File, paths: seq<string>, at: nat)
    requires Clean(d) && MergedAt(o, d, read, product.table, olds, product) && PathsOf(d, olds, paths)
             && at > d.snapshot
    requires forall b | b in olds ::
               DeletedAt(o, d, product.table, read, d.files[b].path)
               <= DeletedAt(o, d, product.table, d.snapshot, d.files[b].path)
    ensures var e := RevokeAll(DataSwap(d, olds, [product]), paths, d.snapshot + 1);
            View(o, e, product.table, at) == View(o, d, product.table, d.snapshot)
            <==> !LateDeletion(o, d, read, product.table, olds)
  {
    var e := RevokeAll(DataSwap(d, olds, [product]), paths, d.snapshot + 1);
    SwapIsSwapped(d, olds, product);
    RevokesStaySwapped(d, DataSwap(d, olds, [product]), olds, product, paths);
    SwappedRightIff(o, d, e, read, olds, product, at);
    InputsEqualIff(o, d, read, product.table, olds);
  }

  lemma SwappedRightIff(o: Objects, d: Data, e: Data, read: nat, olds: seq<string>, product: File, at: nat)
    requires Clean(d) && MergedAt(o, d, read, product.table, olds, product) && Swapped(d, e, olds, product)
             && at > d.snapshot
    ensures View(o, e, product.table, at) == View(o, d, product.table, d.snapshot) <==>
            Bag(ShownFiles(o, d, product.table, d.snapshot, Ids(olds)))
                == Bag(ShownFiles(o, d, product.table, read, Ids(olds)))
  {
    ViewAfter(o, d, e, olds, product, product.table, at);
    ViewBefore(o, d, olds, product.table);
    SameSummand(Bag(ShownFiles(o, d, product.table, d.snapshot, VisibleIds(d, product.table, d.snapshot) - Ids(olds))),
                multiset(o.Rows(product.path)), Bag(ShownFiles(o, d, product.table, d.snapshot, Ids(olds))));
  }

  lemma SameSummand(k: multiset<Row>, m: multiset<Row>, n: multiset<Row>)
    ensures k + m == k + n <==> m == n
  {
    if k + m == k + n { assert m == (k + m) - k && n == (k + n) - k; }
  }
}

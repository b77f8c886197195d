/** The reading half of a compaction: the bitmaps of a table, the merged rows, and when a shard is merged. */
module Merging {
  import opened Common
  import opened CatalogModel
  import opened CatalogOps
  import opened TaskDirectory
  import opened TaskFidelity
  import opened Deletion
  import opened Compaction
  import opened Sums

  // ---------------------------------------------------------------- collecting the bitmaps

  ghost predicate Collected(o: Objects, d: Data, table: string, at: nat, done: set<(string, string)>,
                            r: map<string, set<nat>>) {
    && (forall path :: path in r <==> ActiveOn(d, table, at, path) * done != {})
    && (forall path | path in r :: r[path] == Union(o, d.dvs, ActiveOn(d, table, at, path) * done))
  }

  lemma UnionGrows(o: Objects, dvs: map<(string, string), Dv>, keys: set<(string, string)>, k: (string, string))
    requires k in dvs
    ensures Union(o, dvs, keys + {k}) == Union(o, dvs, keys) + o.Positions(dvs[k])
  {
    forall p | p in o.Positions(dvs[k]) ensures p in Union(o, dvs, keys + {k}) {
      assert k in keys + {k} && p in o.Positions(dvs[k]);
    }
  }

  lemma CollectedGrows(o: Objects, d: Data, table: string, at: nat, done: set<(string, string)>,
                       r: map<string, set<nat>>,
                       k: (string, string), s: map<string, set<nat>>)
    requires Collected(o, d, table, at, done, r) && k in ActiveDvs(d, table, at)
    requires var p := d.dvs[k].path; s == r[p := (if p in r then r[p] else {}) + o.Positions(d.dvs[k])]
    ensures Collected(o, d, table, at, done + {k}, s)
  {
    var path := d.dvs[k].path;
    forall p
      ensures p in s <==> ActiveOn(d, table, at, p) * (done + {k}) != {}
      ensures p in s ==> s[p] == Union(o, d.dvs, ActiveOn(d, table, at, p) * (done + {k}))
    {
      var before, after := ActiveOn(d, table, at, p) * done, ActiveOn(d, table, at, p) * (done + {k});
      if p == path {
        assert after == before + {k};
        UnionGrows(o, d.dvs, before, k);
        if p !in r { assert before == {} && Union(o, d.dvs, {}) == {}; }
      } else {
        assert after == before;
      }
    }
  }

  /** One bitmap per file that has active vectors. A bitmap that cannot be read refuses the merge: going on
      without it would bring deleted rows back. */
  method DeletionBitmaps(o: Objects, d: Data, table: string, at: nat) returns (r: Result<map<string, set<nat>>>)
    ensures r.Ok? <==> forall k | k in ActiveDvs(d, table, at) :: d.dvs[k].storePath in o.bits
    ensures r.Ok? ==> forall path :: path in r.value <==> ActiveOn(d, table, at, path) != {}
    ensures r.Ok? ==> forall path | path in r.value :: r.value[path] == DeletedAt(o, d, table, at, path)
  {
    var out: map<string, set<nat>> := map[];
    var todo := ActiveDvs(d, table, at).Keys;
    ghost var done: set<(string, string)> := {};
    while todo != {}
      invariant todo + done == ActiveDvs(d, table, at).Keys
      invariant forall k | k in done :: d.dvs[k].storePath in o.bits
      invariant Collected(o, d, table, at, done, out)
      decreases todo
    {
      var k :| k in todo;
      var dv := d.dvs[k];
      if dv.storePath !in o.bits { return Err(NotFound); }
      ghost var before := out;
      out := out[dv.path := (if dv.path in out then out[dv.path] else {}) + o.bits[dv.storePath]];
      CollectedGrows(o, d, table, at, done, before, k, out);
      todo, done := todo - {k}, done + {k};
    }
    forall path ensures ActiveOn(d, table, at, path) * done == ActiveOn(d, table, at, path) {
    }
    return Ok(out);
  }

  // ---------------------------------------------------------------- merging the rows

  lemma OneMoreFile(o: Objects, d: Data, table: string, at: nat, ids: set<string>, b: string)
    requires b in d.files && b !in ids
    ensures Bag(ShownFiles(o, d, table, at, ids + {b}))
            == Bag(ShownFiles(o, d, table, at, ids)) + Shown(o, d, table, at, d.files[b].path)
  {
    SplitFiles(o, d, table, at, ids, {b});
    ProductBag(o, d, table, at, b);
  }

  lemma Untouched(o: Objects, d: Data, table: string, at: nat, path: string)
    requires ActiveOn(d, table, at, path) == {}
    ensures Shown(o, d, table, at, path) == multiset(o.Rows(path))
  {
    assert Union(o, d.dvs, {}) == {};
    KeepAll(o.Rows(path), {}, 0);
  }

  /** The bitmap of a file names only rows the file has. */
  ghost predicate BitmapFits(o: Objects, d: Data, table: string, at: nat, b: string)
    requires b in d.files
  {
    Fits(DeletedAt(o, d, table, at, d.files[b].path), d.files[b].rowCount)
  }

  /** The merged rows are exactly what a reader at `at` sees of the inputs; anything unreadable refuses the merge. */
  method MergeInputs(o: Objects, d: Data, table: string, at: nat, olds: seq<string>) returns (r: Result<seq<Row>>)
    requires NoRepeat(olds) && forall b | b in olds :: b in d.files
    ensures r.Ok? <==>
              && (forall k | k in ActiveDvs(d, table, at) :: d.dvs[k].storePath in o.bits)
              && (forall b | b in olds :: d.files[b].path in o.batches && BitmapFits(o, d, table, at, b))
    ensures r.Ok? ==> multiset(r.value) == Bag(ShownFiles(o, d, table, at, Ids(olds)))
  {
    var bitmaps := DeletionBitmaps(o, d, table, at);
    if bitmaps.Err? { return Err(bitmaps.error); }
    var merged: seq<Row> := [];
    for i := 0 to |olds|
      invariant forall b | b in olds[..i] :: d.files[b].path in o.batches && BitmapFits(o, d, table, at, b)
      invariant multiset(merged) == Bag(ShownFiles(o, d, table, at, Ids(olds[..i])))
    {
      var f := d.files[olds[i]];
      if f.path !in o.batches { return Err(NotFound); }
      assert olds[..i + 1] == olds[..i] + [olds[i]];
      assert Ids(olds[..i + 1]) == Ids(olds[..i]) + {olds[i]};
      OneMoreFile(o, d, table, at, Ids(olds[..i]), olds[i]);
      if f.path in bitmaps.value {
        var kept := ApplyToBatches(o.batches[f.path], bitmaps.value[f.path], f.rowCount);
        if kept.Err? { return Err(kept.error); }
        merged := merged + Flatten(kept.value);
      } else {
        Untouched(o, d, table, at, f.path);
        assert Union(o, d.dvs, {}) == {};
        merged := merged + Flatten(o.batches[f.path]);
      }
    }
    assert olds[..|olds|] == olds;
    return Ok(merged);
  }

  // ---------------------------------------------------------------- no work is missed

  /** When the executor merges: enough files, or a file with enough deleted rows. The ratio is `num / den`. */
  datatype Policy = Policy(minFiles: nat, minCard: nat, num: nat, den: nat)

  predicate WorthCompacting(p: Policy, card: nat, rows: nat) {
    0 < card <= rows && card >= p.minCard && card * p.den >= rows * p.num
  }

  predicate ExecutorMerges(o: Objects, d: Data, p: Policy, key: ShardKey) {
    var files := set b | b in d.files && KeyOf(d.files[b]) == key && d.files[b].VisibleAt(d.snapshot);
    files != {} &&
    (|files| >= p.minFiles
     || exists b :: b in files &&
          WorthCompacting(p, |DeletedAt(o, d, key.table, d.snapshot, d.files[b].path)|, d.files[b].rowCount))
  }

  /** The policy is at least as strict as the thresholds of the directory. */
  predicate Stricter(p: Policy) {
    p.minFiles >= TASK_FILES && p.minCard >= TASK_MIN_CARD && p.den > 0 && p.num * TASK_RATIO_INVERSE >= p.den
  }

  lemma UnionSize<T>(a: set<T>, b: set<T>)
    ensures |a + b| <= |a| + |b|
  {
    assert a + b == a + (b - a);
    assert |b - a| <= |b| by { assert (b - a) + (a * b) == b; }
  }

  lemma {:induction false} UnionWithinSum(o: Objects, dvs: map<(string, string), Dv>, cards: map<(string, string), nat>)
    requires forall k | k in cards :: k in dvs && cards[k] == |o.Positions(dvs[k])|
    ensures |Union(o, dvs, cards.Keys)| <= Sum(cards)
    decreases cards.Keys
  {
    if cards == map[] {
      assert Union(o, dvs, {}) == {};
    } else {
      var k :| k in cards;
      var rest := cards - {k};
      assert rest.Keys + {k} == cards.Keys;
      UnionWithinSum(o, dvs, rest);
      UnionGrows(o, dvs, rest.Keys, k);
      UnionSize(Union(o, dvs, rest.Keys), o.Positions(dvs[k]));
      SumTake(cards, k);
    }
  }

  ghost predicate CardsExact(o: Objects, d: Data) {
    forall k | k in d.dvs :: d.dvs[k].card == |o.Positions(d.dvs[k])|
  }

  lemma DirectoryCountsEnough(o: Objects, d: Data, b: string)
    requires Clean(d) && CardsExact(o, d) && b in d.files
    ensures |DeletedAt(o, d, d.files[b].table, d.snapshot, d.files[b].path)| <= Deleted(d, d.files[b].path)
  {
    var cards := Cards(d, d.files[b].path);
    assert cards.Keys == ActiveOn(d, d.files[b].table, d.snapshot, d.files[b].path);
    UnionWithinSum(o, d.dvs, cards);
  }

  lemma RatioTransfers(p: Policy, card: nat, total: nat, rows: nat)
    requires Stricter(p) && WorthCompacting(p, card, rows) && card <= total
    ensures WorthRewriting(rows, total)
  {
    var inv := TASK_RATIO_INVERSE;
    calc {
      (card * inv) * p.den;
      (card * p.den) * inv;
    >= { MulLeft(card * p.den, rows * p.num, inv); }
      (rows * p.num) * inv;
      rows * (p.num * inv);
    >= { MulRight(rows, p.num * inv, p.den); }
      rows * p.den;
    }
    if card * inv < rows { MulStrict(card * inv, rows, p.den); }
  }

  lemma MulLeft(a: nat, b: nat, c: nat)
    requires a >= b
    ensures a * c >= b * c
  {
  }

  lemma MulRight(a: nat, b: nat, c: nat)
    requires b >= c
    ensures a * b >= a * c
  {
  }

  lemma MulStrict(a: nat, b: nat, c: nat)
    requires a < b && c > 0
    ensures a * c < b * c
  {
  }

  /** Whatever shard a policy no laxer than the directory would merge, the directory lists. */
  lemma NoWorkMissed(o: Objects, d: Data, tasks: map<ShardKey, Task>, p: Policy, key: ShardKey)
    requires Clean(d) && CardsExact(o, d) && Faithful(tasks, d) && Stricter(p) && ExecutorMerges(o, d, p, key)
    ensures key in tasks
  {
    var files := set b | b in d.files && KeyOf(d.files[b]) == key && d.files[b].VisibleAt(d.snapshot);
    assert files == Members(d, key);
    if |files| < p.minFiles {
      var b :| b in files &&
        WorthCompacting(p, |DeletedAt(o, d, key.table, d.snapshot, d.files[b].path)|, d.files[b].rowCount);
      DirectoryCountsEnough(o, d, b);
      RatioTransfers(p, |DeletedAt(o, d, key.table, d.snapshot, d.files[b].path)|, Deleted(d, d.files[b].path),
          d.files[b].rowCount);
    }
    assert Derive(d, key).Some?;
    assert FaithfulAt(tasks, d, key);
  }
}

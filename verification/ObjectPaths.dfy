/** Where objects are stored, and which batch keeps an object alive. A path is its list of segments, so the
    text between two slashes is one element and contains no slash. */
module ObjectPaths {
  import opened CatalogModel

  type Path = seq<string>

  function FilePath(schema: string, table: string, window: string, shard: string, batch: string, ext: string): Path {
    ["yuntun", schema, table, "dt=" + window, "shard=" + shard, batch + "." + ext]
  }

  /** The index of a data file differs from it in the extension only. */
  function IndexPath(p: Path): Path
    requires p != []
  {
    var name := p[|p| - 1];
    p[..|p| - 1] + [(if LastDot(name) < 0 then name else name[..LastDot(name)]) + ".idx"]
  }

  /** The bitmap of a deletion vector lies in a directory named after its data file. */
  function DvPath(p: Path, dvId: string): Path
    requires p != []
  {
    p[..|p| - 1] + ["dv", p[|p| - 1], dvId + ".bin"]
  }

  /** Position of the last '.' of `s`, or -1. */
  function LastDot(s: string): (i: int)
    ensures -1 <= i < |s|
    ensures i >= 0 ==> s[i] == '.'
    ensures forall j | i < j < |s| :: s[j] != '.'
  {
    if s == "" then -1
    else if s[|s| - 1] == '.' then |s| - 1
    else LastDot(s[..|s| - 1])
  }

  function ExtractBatchId(p: Path): Option<string> {
    if p == [] then None
    else
      var name := p[|p| - 1];
      if LastDot(name) < 0 then None else Some(name[..LastDot(name)])
  }

  /** Position of the first inner segment that is "dv", or -1. */
  function FirstDv(p: Path, from: nat): (i: int)
    requires from <= |p|
    ensures i == -1 || (from <= i && i + 1 < |p| && p[i] == "dv")
    ensures forall j | from <= j < (if i == -1 then |p| - 1 else i) :: p[j] != "dv"
    decreases |p| - from
  {
    if from + 1 >= |p| then -1 else if p[from] == "dv" then from else FirstDv(p, from + 1)
  }

  /** The batch a deletion vector is anchored on, for paths that have the form of one. */
  function DvAnchor(p: Path): Option<string> {
    var i := if |p| < 1 then -1 else FirstDv(p, 1);
    if i < 0 || p[i + 1] == "" || i + 2 == |p| then None
    else
      var name := p[i + 1];
      Some(if LastDot(name) < 0 then name else name[..LastDot(name)])
  }

  /** The batch that keeps the object alive. */
  function ReconciliationKey(p: Path): Option<string> {
    if DvAnchor(p).Some? then DvAnchor(p) else ExtractBatchId(p)
  }

  predicate Plain(s: string) {
    s != "" && '.' !in s
  }

  lemma LastDotIs(s: string, k: nat)
    requires k < |s| && s[k] == '.' && forall j | k < j < |s| :: s[j] != '.'
    ensures LastDot(s) == k
  {
  }

  lemma StemOf(stem: string, ext: string)
    requires '.' !in ext
    ensures LastDot(stem + "." + ext) == |stem|
    ensures (stem + "." + ext)[..|stem|] == stem
  {
    var t := stem + ".";
    assert t[|stem|] == '.';
    LastDotOfSum(t, ext);
    assert (t + ext)[..|stem|] == t[..|stem|] == stem;
  }

  lemma LastDotOfSum(t: string, ext: string)
    requires '.' !in ext && t != "" && t[|t| - 1] == '.'
    ensures LastDot(t + ext) == |t| - 1
  {
    var s := t + ext;
    forall j | |t| <= j < |s| ensures s[j] != '.' {
      assert s[j] == ext[j - |t|];
    }
    LastDotIs(s, |t| - 1);
  }

  lemma NoDot(s: string)
    requires '.' !in s
    ensures LastDot(s) == -1
  {
  }

  lemma PartitionNames(window: string, shard: string)
    ensures "dt=" + window != "dv" && "shard=" + shard != "dv"
    ensures '.' !in window ==> '.' !in "dt=" + window
  {
    assert ("dt=" + window)[1] == 't' && ("shard=" + shard)[0] == 's';
  }

  /** A data file is kept alive by its own batch exactly when neither its schema nor its table is called "dv":
      the first "dv" directory of a path decides, wherever it stands. */
  lemma DataFileKeyIff(schema: string, table: string, window: string, shard: string, batch: string, ext: string)
    requires Plain(schema) && Plain(table) && Plain(ext) && '.' !in window
    requires batch != table && batch != "dt=" + window
    ensures ReconciliationKey(FilePath(schema, table, window, shard, batch, ext)) == Some(batch)
            <==> schema != "dv" && table != "dv"
  {
    var p := FilePath(schema, table, window, shard, batch, ext);
    var i := FirstDv(p, 1);
    StemOf(batch, ext);
    PartitionNames(window, shard);
    assert p[1] == schema && p[2] == table && p[3] != "dv" && p[4] != "dv";
    if schema == "dv" {
      NoDot(table);
    } else if table == "dv" {
      NoDot("dt=" + window);
    }
  }

  /** A deletion vector and an index are kept alive by the batch of their data file, not by their own name. */
  lemma CompanionKeys(schema: string, table: string, window: string, shard: string, batch: string, ext: string,
                      dvId: string)
    requires Plain(schema) && Plain(table) && Plain(ext) && schema != "dv" && table != "dv"
    ensures var p := FilePath(schema, table, window, shard, batch, ext);
            && DvAnchor(DvPath(p, dvId)) == Some(batch) && ReconciliationKey(DvPath(p, dvId)) == Some(batch)
            && DvAnchor(IndexPath(p)) == None && ReconciliationKey(IndexPath(p)) == Some(batch)
  {
    var p := FilePath(schema, table, window, shard, batch, ext);
    StemOf(batch, ext);
    StemOf(batch, "idx");
    PartitionNames(window, shard);
    var q, r := DvPath(p, dvId), IndexPath(p);
    assert q == ["yuntun", schema, table, p[3], p[4], "dv", p[5], dvId + ".bin"];
    assert r == ["yuntun", schema, table, p[3], p[4], batch + ".idx"];
    assert batch + ".idx" == batch + "." + "idx";
    var i, j := FirstDv(q, 1), FirstDv(r, 1);
    assert q[1] != "dv" && q[2] != "dv" && q[3] != "dv" && q[4] != "dv" && q[5] == "dv";
    assert r[1] != "dv" && r[2] != "dv" && r[3] != "dv" && r[4] != "dv";
  }

  // ---------------------------------------------------------------- one round of the collector

  /** A deletion vector also needs an event of the catalog that refers to it. */
  predicate Protected(p: Path, known: set<string>, referenced: set<Path>) {
    && ReconciliationKey(p).Some? && ReconciliationKey(p).value in known
    && (DvAnchor(p).None? || p in referenced)
  }

  /** The object has been seen as an orphan for at least `grace`. */
  predicate Due(seen: map<string, nat>, key: string, now: nat, grace: nat) {
    SatSub(now, if key in seen then seen[key] else now) >= grace
  }

  predicate Collectable(p: Path, known: set<string>, referenced: set<Path>, seen: map<string, nat>, now: nat,
                        grace: nat) {
    ReconciliationKey(p).Some? && !Protected(p, known, referenced) && Due(seen, ReconciliationKey(p).value, now, grace)
  }

  ghost predicate OwnKeys(objects: seq<Path>) {
    forall i, j | 0 <= i < j < |objects| && ReconciliationKey(objects[i]).Some?
        :: ReconciliationKey(objects[i]) != ReconciliationKey(objects[j])
  }

  ghost predicate KeyedBy(objects: seq<Path>, key: string) {
    exists p :: p in objects && ReconciliationKey(p) == Some(key)
  }

  class OrphanCleaner {
    var firstSeen: map<string, nat>

    constructor ()
      ensures firstSeen == map[]
    {
      firstSeen := map[];
    }

    /** Deletes what is not protected and was first seen as an orphan at least `grace` ago. Deleting an object
        of `failing` fails. When no two objects share a key the deletions are exact; objects that do share one
        (a data file, its index, its vectors) share one observation time, and then only safety is promised. */
    method Round(objects: seq<Path>, known: set<string>, referenced: set<Path>, failing: set<Path>, now: nat,
                 grace: nat)
      returns (removed: seq<Path>)
      modifies this
      ensures forall p | p in removed ::
                p in objects && p !in failing && Collectable(p, known, referenced, old(firstSeen), now, grace)
      ensures OwnKeys(objects) ==> forall p | p in objects && p !in failing
              && Collectable(p, known, referenced, old(firstSeen), now, grace) :: p in removed
      ensures forall k | k in firstSeen ::
                KeyedBy(objects, k) && (firstSeen[k] == now
                    || (k in old(firstSeen) && firstSeen[k] == old(firstSeen)[k]))
    {
      removed := [];
      var current: set<string> := {};
      ghost var seen := firstSeen;
      for i := 0 to |objects|
        invariant forall k | k in current :: KeyedBy(objects, k)
        invariant forall k | k in firstSeen :: firstSeen[k] == now || (k in seen && firstSeen[k] == seen[k])
        invariant forall p | p in removed ::
                    p in objects && p !in failing && Collectable(p, known, referenced, seen, now, grace)
        invariant OwnKeys(objects) ==>
                    && (forall j | 0 <= j < i && objects[j] !in failing
                        && Collectable(objects[j], known, referenced, seen, now, grace)
                          :: objects[j] in removed)
                    && (forall j | i <= j < |objects| && ReconciliationKey(objects[j]).Some? ::
                          Same(firstSeen, seen, ReconciliationKey(objects[j]).value))
      {
        var path := objects[i];
        if ReconciliationKey(path).None? { continue; }
        var key := ReconciliationKey(path).value;
        assert path in objects;
        current := current + {key};
        if Protected(path, known, referenced) {
          firstSeen := firstSeen - {key};
          continue;
        }
        if key !in firstSeen { firstSeen := firstSeen[key := now]; }
        if SatSub(now, firstSeen[key]) < grace { continue; }
        if path !in failing {
          removed := removed + [path];
          firstSeen := firstSeen - {key};
        }
      }
      firstSeen := map k | k in firstSeen && k in current :: firstSeen[k];
    }
  }

  predicate Same(a: map<string, nat>, b: map<string, nat>, key: string) {
    (key in a <==> key in b) && (key in a ==> a[key] == b[key])
  }
}

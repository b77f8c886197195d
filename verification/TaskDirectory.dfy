/** The directory of shards worth compacting. It is derived from the files and deletion vectors, but
    each operation only refreshes the shards it touched; the theorem is that this is enough. */
module TaskDirectory {
  import opened CatalogModel
  import opened CatalogOps
  import opened Sums
  import Strings

  const TASK_FILES: nat := 2
  const TASK_MIN_CARD: nat := 500
  const TASK_RATIO_INVERSE: nat := 20

  datatype Reason = SmallFiles | Deletions

  /** What is derived. A task also records when the shard first qualified, 0 if unknown. */
  datatype Body = Body(files: nat, deletedRows: nat, reason: Reason)

  datatype Task = Task(body: Body, since: nat)

  // ---------------------------------------------------------------- deriving one shard

  function KeyOf(f: File): ShardKey {
    ShardKey(f.table, f.shard)
  }

  function Members(d: Data, key: ShardKey): set<string> {
    set b | b in d.files && KeyOf(d.files[b]) == key && d.files[b].ProtectedAt(d.snapshot)
  }

  function Cards(d: Data, path: string): map<(string, string), nat> {
    map k | k in d.dvs && d.dvs[k].path == path && d.dvs[k].ActiveAt(d.snapshot) :: d.dvs[k].card
  }

  ghost function Deleted(d: Data, path: string): nat {
    Sum(Cards(d, path))
  }

  ghost function DeletedPer(d: Data, ids: set<string>): map<string, nat> {
    map b | b in ids && b in d.files :: Deleted(d, d.files[b].path)
  }

  ghost function DeletedPerFile(d: Data, key: ShardKey): map<string, nat> {
    DeletedPer(d, Members(d, key))
  }

  predicate WorthRewriting(rows: nat, card: nat) {
    rows > 0 && card >= TASK_MIN_CARD && card * TASK_RATIO_INVERSE >= rows
  }

  ghost predicate AnyWorthRewriting(d: Data, ids: set<string>) {
    exists b :: b in ids && b in d.files && WorthRewriting(d.files[b].rowCount, Deleted(d, d.files[b].path))
  }

  ghost function Derive(d: Data, key: ShardKey): Option<Body> {
    var members := Members(d, key);
    var rows := Sum(DeletedPerFile(d, key));
    if |members| >= TASK_FILES then Some(Body(|members|, rows, SmallFiles))
    else if AnyWorthRewriting(d, members) then Some(Body(|members|, rows, Deletions))
    else None
  }

  // ---------------------------------------------------------------- refreshing

  /** The shard of the first file, in key order, stored at `path`. */
  ghost function KeyOfPath(files: map<string, File>, path: string): Option<ShardKey> {
    var ids := set b | b in files && files[b].path == path;
    if ids == {} then None else Some(KeyOf(files[Strings.Least(ids)]))
  }

  ghost function KeysOfPaths(files: map<string, File>, paths: set<string>): set<ShardKey> {
    set p | p in paths && KeyOfPath(files, p).Some? :: KeyOfPath(files, p).value
  }

  function Paths(dvs: seq<Dv>): set<string> {
    set d | d in dvs :: d.path
  }

  function KeysOfFiles(files: seq<File>): set<ShardKey> {
    set f | f in files :: KeyOf(f)
  }

  function KeysOfIds(files: map<string, File>, ids: set<string>): set<ShardKey> {
    set b | b in ids && b in files :: KeyOf(files[b])
  }

  /** The shards that `op`, taking `d` to `e`, refreshes. */
  ghost function Refreshed(d: Data, e: Data, op: Op): set<ShardKey> {
    match op
    case OpCommitFiles(req, _) => {ShardKey(req.table, req.shard)}
    case OpApplyDeletions(entries, _) => KeysOfPaths(e.files, Paths(FreshDvs(d.dvs, entries)))
    case OpApplyUpdate(entries, newFiles, _, _) =>
      KeysOfFiles(FreshFiles(d.files, newFiles)) + KeysOfPaths(e.files, Paths(FreshDvs(d.dvs, entries)))
    case OpPurge(table, _, _) => KeysOfIds(d.files, Victims(d.files, table))
    case OpRevoke(path, _, _) => KeysOfPaths(e.files, {path})
    case OpDropShard(key, _) => {key}
    case OpCommitCompaction(_, news, _, _) => if news == [] then {} else {KeyOf(news[0])}
    case _ => {}
  }

  /** An operation refreshes only when it took effect; only a revocation takes effect without a new snapshot. */
  ghost predicate TookEffect(d: Data, e: Data, op: Op) {
    e.snapshot != d.snapshot || (op.OpRevoke? && DvsOfPath(d.dvs, op.path) != {})
  }

  function RefreshClock(op: Op): nat {
    match op
    case OpCommitFiles(_, now) => SatMul(now, 1000)
    case OpApplyUpdate(_, _, _, now) => SatMul(now, 1000)
    case OpApplyDeletions(_, now) => now
    case OpPurge(_, _, now) => now
    case OpRevoke(_, _, now) => now
    case OpDropShard(_, now) => now
    case _ => 0
  }

  function Since(tasks: map<ShardKey, Task>, key: ShardKey, clock: nat): nat {
    if key in tasks && tasks[key].since != 0 then tasks[key].since else clock
  }

  ghost function Refresh(tasks: map<ShardKey, Task>, d: Data, keys: set<ShardKey>, clock: nat): map<ShardKey, Task> {
    map k | k in tasks.Keys + keys && (k in keys ==> Derive(d, k).Some?)
         :: if k in keys then Task(Derive(d, k).value, Since(tasks, k, clock)) else tasks[k]
  }

  datatype Catalog = Catalog(state: State, tasks: map<ShardKey, Task>)

  ghost function FullStep(c: Catalog, op: Op): Catalog {
    var t := Step(c.state, op);
    Catalog(t, if TookEffect(c.state.data, t.data, op)
               then Refresh(c.tasks, t.data, Refreshed(c.state.data, t.data, op), RefreshClock(op))
               else c.tasks)
  }

  ghost function FullRun(c: Catalog, ops: seq<Op>): Catalog
    decreases |ops|
  {
    if ops == [] then c else FullRun(FullStep(c, ops[0]), ops[1..])
  }

  /** The directory rebuilt from scratch on restore: every shard that has a file, with unknown age. */
  ghost function Rebuilt(d: Data): map<ShardKey, Task> {
    Refresh(map[], d, KeysOfIds(d.files, d.files.Keys), 0)
  }

  // ---------------------------------------------------------------- the index property

  ghost predicate FaithfulAt(tasks: map<ShardKey, Task>, d: Data, k: ShardKey) {
    if k in tasks then Derive(d, k) == Some(tasks[k].body) else Derive(d, k) == None
  }

  ghost predicate Faithful(tasks: map<ShardKey, Task>, d: Data) {
    forall k :: FaithfulAt(tasks, d, k)
  }

  lemma NoFilesNoTask(d: Data, k: ShardKey)
    requires k !in KeysOfIds(d.files, d.files.Keys)
    ensures Derive(d, k) == None
  {
    assert Members(d, k) == {};
  }

  lemma RebuiltIsFaithful(d: Data)
    ensures Faithful(Rebuilt(d), d)
  {
    forall k ensures FaithfulAt(Rebuilt(d), d, k) {
      if k !in KeysOfIds(d.files, d.files.Keys) { NoFilesNoTask(d, k); }
    }
  }

  /** Up to the recorded age, the directory is the one rebuilt from scratch. */
  ghost predicate SameTasks(a: map<ShardKey, Task>, b: map<ShardKey, Task>) {
    a.Keys == b.Keys && forall k | k in a :: a[k].body == b[k].body
  }

  lemma FaithfulIsRebuilt(tasks: map<ShardKey, Task>, d: Data)
    ensures Faithful(tasks, d) <==> SameTasks(tasks, Rebuilt(d))
  {
    RebuiltIsFaithful(d);
    if Faithful(tasks, d) {
      forall k ensures k in tasks <==> k in Rebuilt(d) {
        assert FaithfulAt(tasks, d, k) && FaithfulAt(Rebuilt(d), d, k);
      }
      forall k | k in tasks ensures tasks[k].body == Rebuilt(d)[k].body {
        assert FaithfulAt(tasks, d, k) && FaithfulAt(Rebuilt(d), d, k);
      }
    }
    if SameTasks(tasks, Rebuilt(d)) {
      forall k ensures FaithfulAt(tasks, d, k) {
        assert FaithfulAt(Rebuilt(d), d, k);
        assert k in tasks.Keys <==> k in Rebuilt(d).Keys;
      }
    }
  }
}

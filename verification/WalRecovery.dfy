/** Restarts from the log, any number of them: batches are committed again or written again, their rows are skipped
    when the log is replayed, and every other row of the present era goes into a new chunk. */
module WalRecovery {
  import opened CatalogOps
  import opened WalLog
  import opened FlushKeys

  /** A batch that was not aborted. A pending one has no object yet; a redone one was written again from the log at
      an earlier restart. `home` are the rows of the chunk it was made from. */
  datatype Batch = Batch(id: string, key: Key, start: nat, end: nat, pending: bool, redone: bool, home: set<nat>)
  {
    predicate Redo() { pending || redone }
  }

  /** What a recovered batch claims: the rows of one group in a half-open interval. */
  datatype Claim = Claim(key: Key, epoch: nat, start: nat, end: nat)
  {
    predicate Covers(k: Key, e: nat, q: nat) {
      key == k && epoch == e && start <= q < end
    }
  }

  /** What survives a crash. The batches are in the order in which the next restart takes them. */
  datatype Disk = Disk(log: seq<Record>, batches: seq<Batch>)

  // ---------------------------------------------------------------- what a restart does

  function Now(log: seq<Record>, table: string): Life {
    LifeAfter(log, |log|, table)
  }

  /** Only batches of the present era are recovered. */
  predicate Passes(log: seq<Record>, b: Batch) {
    b.start < |log| &&
    var x, y := LifeAfter(log, b.start + 1, b.key.table), Now(log, b.key.table);
    x.alive && y.alive && x.epoch == y.epoch
  }

  /** A pending batch is written again from the log: all rows of its table in its interval. */
  function RedoRows(log: seq<Record>, b: Batch): set<nat> {
    set q | b.start <= q < b.end && q < |log| && log[q].Rows? && log[q].key.table == b.key.table
  }

  function FileRows(log: seq<Record>, b: Batch): set<nat> {
    if b.Redo() then RedoRows(log, b) else b.home
  }

  /** A pending batch without rows is given up. */
  predicate Recovered(log: seq<Record>, b: Batch) {
    Passes(log, b) && (b.pending ==> RedoRows(log, b) != {})
  }

  function ClaimOf(log: seq<Record>, b: Batch): Claim {
    Claim(b.key, Now(log, b.key.table).epoch, b.start, b.end)
  }

  /** The claim of a batch recovered from `log`, on row `q` of the log as it is later. */
  predicate Claims(log: seq<Record>, b: Batch, later: seq<Record>, q: nat)
    requires q < |later| && later[q].Rows?
  {
    ClaimOf(log, b).Covers(later[q].key, LifeAfter(later, q, later[q].key.table).epoch, q)
  }

  function KeysOf(log: seq<Record>, b: Batch): set<string> {
    KeysIn(log, b.start, b.end)
  }

  /** The catalog starts empty and refuses a batch that shares a client key with one it accepted before. Nobody
      looks at the answer: the batch is recovered, with its claim, all the same. */
  predicate Accepts(log: seq<Record>, batches: seq<Batch>, i: nat)
    requires i < |batches|
  {
    Recovered(log, batches[i]) && forall j: nat | j < i
        && Accepts(log, batches, j) :: KeysOf(log, batches[j]) !! KeysOf(log, batches[i])
  }

  /** The rows that the replay leaves out. */
  function Skipped(d: Disk, later: seq<Record>): set<nat> {
    set q | 0 <= q < |later| && later[q].Rows?
            && exists b :: b in d.batches && Recovered(d.log, b) && Claims(d.log, b, later, q)
  }

  /** Replaying the log puts a row into a new chunk unless its table is dropped there or a batch claims it. */
  predicate Absorbed(d: Disk, q: nat) {
    q < |d.log| && d.log[q].Rows? && LifeAfter(d.log, q, d.log[q].key.table).alive && q !in Skipped(d, d.log)
  }

  /** The batches whose file enters the catalog with the row in it. */
  function Owners(d: Disk, q: nat): set<nat> {
    set i | 0 <= i < |d.batches| && Accepts(d.log, d.batches, i) && q in FileRows(d.log, d.batches[i])
  }

  /** In how many files of the catalog and new chunks the row ends up. */
  function Copies(d: Disk, q: nat): nat {
    |Owners(d, q)| + if Absorbed(d, q) then 1 else 0
  }

  /** The row belongs to the era its table is in at the end of the log. */
  predicate Present(log: seq<Record>, q: nat) {
    q < |log| && log[q].Rows? &&
    var x, y := LifeAfter(log, q, log[q].key.table), Now(log, log[q].key.table);
    x.alive && y.alive && x.epoch == y.epoch
  }

  ghost predicate Once(d: Disk) {
    forall q: nat | Present(d.log, q) :: Copies(d, q) == 1
  }

  // ---------------------------------------------------------------- from one crash to the next

  /** The batch as it was, or redone. */
  predicate Same(a: Batch, b: Batch) {
    b == a || (a.pending && b == a.(pending := false, redone := true))
  }

  /** The batch was made from chunk `i` of group `g`, while the era of the group lasted. */
  ghost predicate MadeFrom(b: Batch, d: Disk, later: seq<Record>, cuts: seq<set<Group>>, g: Group, i: nat) {
    && b.key == g.key && !b.redone
    && IsChunk(later, cuts, Skipped(d, later), g, i)
    && var chunk := ChunkOf(later, cuts, Skipped(d, later), g, i);
    && Hull(chunk, b.start, b.end) && b.home == (set q | q in chunk)
    && exists n :: |d.log| <= n <= |later| && LifeAfter(later, n, g.key.table) == Life(true, g.epoch)
  }

  ghost predicate Old(d: Disk, b: Batch) {
    exists a :: a in d.batches && Same(a, b)
  }

  ghost predicate New(d: Disk, later: seq<Record>, cuts: seq<set<Group>>, b: Batch) {
    exists g, i: nat :: MadeFrom(b, d, later, cuts, g, i)
  }

  ghost predicate DistinctIds(batches: seq<Batch>) {
    && (forall i, j | 0 <= i < j < |batches| :: batches[i].id != batches[j].id)
    && (forall i | 0 <= i < |batches| :: batches[i].id != "")
  }

  /** One run, from a restart that may have been interrupted to the next crash. The log grew; no recovered batch was
      lost; a batch is one of the old ones or was made from a chunk, at most one from each; the order is anything. */
  ghost predicate Next(d: Disk, e: Disk, cuts: seq<set<Group>>) {
    && d.log <= e.log && |cuts| == |e.log|
    && DistinctIds(e.batches)
    && (forall b | b in e.batches :: Old(d, b) || New(d, e.log, cuts, b))
    && (forall a | a in d.batches && Recovered(d.log, a) :: exists b :: b in e.batches && Same(a, b))
    && (forall a, b, g, i: nat | a in e.batches && b in e.batches && MadeFrom(a, d, e.log, cuts, g, i)
        && MadeFrom(b, d, e.log, cuts, g, i) :: a == b)
  }

  /** The states at the successive crashes; `cuts[k]` says when the run before crash `k + 1` closed its chunks. */
  ghost predicate History(disks: seq<Disk>, cuts: seq<seq<set<Group>>>) {
    && |disks| == |cuts| + 1 && disks[0] == Disk([], [])
    && forall k | 0 <= k < |cuts| :: Next(disks[k], disks[k + 1], cuts[k])
  }

  // ---------------------------------------------------------------- the invariant

  function GroupOf(log: seq<Record>, b: Batch): Group
    requires b.start < |log|
  {
    Group(b.key, LifeAfter(log, b.start, b.key.table).epoch)
  }

  ghost predicate BatchOk(log: seq<Record>, b: Batch) {
    && b.start < b.end <= |log| && b.start in b.home && b.end - 1 in b.home
    && forall q | q in b.home :: b.start <= q < b.end && Member(log, q, GroupOf(log, b))
  }

  /** Batches of one group do not share rows, and an interval that reaches into another encloses it. */
  ghost predicate Apart(log: seq<Record>, a: Batch, b: Batch)
    requires a.start < |log| && b.start < |log|
  {
    && a.home !! b.home
    && (GroupOf(log, a) == GroupOf(log, b) ==>
          forall q | q in a.home && b.start <= q < b.end :: b.start <= a.start && a.end <= b.end)
  }

  /** Every row that a recovered batch claims is in the chunk of one. */
  ghost predicate Covered(d: Disk, b: Batch)
    requires b.start < |d.log|
  {
    forall q: nat | b.start <= q < b.end && Member(d.log, q, GroupOf(d.log, b)) ::
      exists a :: a in d.batches && q in a.home
  }

  ghost predicate Good(d: Disk) {
    && (forall b | b in d.batches :: BatchOk(d.log, b))
    && DistinctIds(d.batches)
    && (forall a, b | a in d.batches && b in d.batches && a != b :: Apart(d.log, a, b))
    && (forall b | b in d.batches && Passes(d.log, b) :: Covered(d, b))
  }

  // ---- eras

  /** A batch of the present era: its group is that of the era. */
  lemma PassingGroup(log: seq<Record>, b: Batch)
    requires BatchOk(log, b)
    ensures Passes(log, b) <==> Now(log, b.key.table) == Life(true, GroupOf(log, b).epoch)
    ensures Recovered(log, b) <==> Passes(log, b)
  {
    assert Member(log, b.start, GroupOf(log, b));
    assert b.start in RedoRows(log, b);
  }

  lemma Extended(log: seq<Record>, later: seq<Record>, b: Batch)
    requires BatchOk(log, b) && log <= later
    ensures BatchOk(later, b) && GroupOf(later, b) == GroupOf(log, b)
    ensures Passes(later, b) ==> Passes(log, b)
  {
    var more := later[|log|..];
    assert later == log + more;
    LifeExtends(log, more, b.start, b.key.table);
    forall q | q in b.home ensures Member(later, q, GroupOf(later, b)) {
      assert Member(log, q, GroupOf(log, b));
      MemberExtends(log, more, q, GroupOf(log, b));
    }
    PassingGroup(later, b);
    if Passes(later, b) { EraIsOne(log, later, b, |later|); }
  }

  /** The era of a batch that is present at one point was present at every point between. */
  lemma EraIsOne(log: seq<Record>, later: seq<Record>, b: Batch, n: nat)
    requires BatchOk(log, b) && log <= later && |log| <= n <= |later|
    requires LifeAfter(later, n, b.key.table) == Life(true, GroupOf(log, b).epoch)
    ensures Passes(log, b)
  {
    var t := b.key.table;
    var more := later[|log|..];
    assert later == log + more;
    assert Member(log, b.start, GroupOf(log, b));
    LifeExtends(log, more, b.start, t);
    LifeExtends(log, more, |log|, t);
    EraGateIff(later, b.start, n, t);
    EraGateIff(later, b.start, |log|, t);
    PassingGroup(log, b);
  }

  /** The rows a recovered batch claims are those of its group in its interval. */
  lemma ClaimedIff(log: seq<Record>, later: seq<Record>, b: Batch, q: nat)
    requires BatchOk(log, b) && Passes(log, b) && log <= later && q < |later| && later[q].Rows?
    requires LifeAfter(later, q, later[q].key.table).alive
    ensures Claims(log, b, later, q) <==> b.start <= q < b.end && Member(log, q, GroupOf(log, b))
  {
    PassingGroup(log, b);
    if b.start <= q < b.end {
      var more := later[|log|..];
      assert later == log + more;
      MemberExtends(log, more, q, GroupOf(log, b));
      LifeExtends(log, more, q, later[q].key.table);
    }
  }

  // ---- every run keeps it

  lemma OldOk(d: Disk, e: Disk, a: Batch, b: Batch)
    requires Good(d) && d.log <= e.log && a in d.batches && Same(a, b)
    ensures BatchOk(e.log, b) && GroupOf(e.log, b) == GroupOf(d.log, a) && (Passes(e.log, b) ==> Passes(d.log, a))
  {
    Extended(d.log, e.log, a);
  }

  lemma NewOk(d: Disk, e: Disk, cuts: seq<set<Group>>, b: Batch, g: Group, i: nat)
    requires MadeFrom(b, d, e.log, cuts, g, i)
    ensures forall q: nat :: q in b.home <==> b.start <= q < b.end && Joins(e.log, Skipped(d, e.log), q, g)
    ensures BatchOk(e.log, b) && GroupOf(e.log, b) == g
  {
    var skip := Skipped(d, e.log);
    var chunk := ChunkOf(e.log, cuts, skip, g, i);
    forall q: nat ensures q in b.home <==> b.start <= q < b.end && Joins(e.log, skip, q, g) {
      ChunkFillsHull(e.log, cuts, skip, g, i, b.start, b.end, q);
    }
    assert b.start in b.home && b.end - 1 in b.home;
    assert Joins(e.log, skip, b.start, g) && Joins(e.log, skip, b.end - 1, g);
  }

  lemma NotSkipped(d: Disk, later: seq<Record>, a: Batch, g: Group, q: nat)
    requires a in d.batches && BatchOk(d.log, a) && Passes(d.log, a) && GroupOf(d.log, a) == g
    requires d.log <= later && Joins(later, Skipped(d, later), q, g)
    ensures !(a.start <= q < a.end)
  {
    PassingGroup(d.log, a);
    ClaimedIff(d.log, later, a, q);
    assert !Claims(d.log, a, later, q);
    if q < |d.log| {
      MemberExtends(d.log, later[|d.log|..], q, g);
      assert later == d.log + later[|d.log|..];
    }
  }

  /** A new batch has no row in the interval of an old one of its group. */
  lemma NewUnclaimed(d: Disk, e: Disk, cuts: seq<set<Group>>, a: Batch, b: Batch, g: Group, i: nat, q: nat)
    requires Good(d) && d.log <= e.log && a in d.batches && MadeFrom(b, d, e.log, cuts, g, i)
    requires GroupOf(d.log, a) == g && q in b.home
    ensures !(a.start <= q < a.end)
  {
    NewOk(d, e, cuts, b, g, i);
    var n :| |d.log| <= n <= |e.log| && LifeAfter(e.log, n, g.key.table) == Life(true, g.epoch);
    EraIsOne(d.log, e.log, a, n);
    NotSkipped(d, e.log, a, g, q);
  }

  lemma ApartOldNew(d: Disk, e: Disk, cuts: seq<set<Group>>, a0: Batch, a: Batch, b: Batch, g: Group, i: nat)
    requires Good(d) && d.log <= e.log && a0 in d.batches && Same(a0, a) && MadeFrom(b, d, e.log, cuts, g, i)
    ensures a.start < |e.log| && b.start < |e.log| && Apart(e.log, a, b) && Apart(e.log, b, a)
  {
    OldOk(d, e, a0, a);
    NewOk(d, e, cuts, b, g, i);
    if GroupOf(e.log, a) == g {
      forall q | q in b.home ensures !(a.start <= q < a.end) { NewUnclaimed(d, e, cuts, a0, b, g, i, q); }
    }
    forall q | q in a.home ensures q !in b.home { assert Member(e.log, q, GroupOf(e.log, a)); }
  }

  lemma ApartNewNew(d: Disk, e: Disk, cuts: seq<set<Group>>, a: Batch, g: Group, i: nat, b: Batch, h: Group, j: nat)
    requires MadeFrom(a, d, e.log, cuts, g, i) && MadeFrom(b, d, e.log, cuts, h, j) && (g, i) != (h, j)
    ensures a.start < |e.log| && b.start < |e.log| && Apart(e.log, a, b)
  {
    var skip := Skipped(d, e.log);
    NewOk(d, e, cuts, a, g, i);
    NewOk(d, e, cuts, b, h, j);
    if q :| q in a.home && q in b.home { SameChunk(e.log, cuts, skip, g, i, h, j, q); }
    if g == h {
      if i < j { HullsInOrder(e.log, cuts, skip, g, i, j, a.start, a.end, b.start, b.end); }
      else { HullsInOrder(e.log, cuts, skip, g, j, i, b.start, b.end, a.start, a.end); }
    }
  }

  lemma ApartOldOld(d: Disk, e: Disk, a0: Batch, a: Batch, b0: Batch, b: Batch)
    requires Good(d) && d.log <= e.log && a0 in d.batches && Same(a0, a) && b0 in d.batches && Same(b0, b) && a0 != b0
    ensures a.start < |e.log| && b.start < |e.log| && Apart(e.log, a, b)
  {
    OldOk(d, e, a0, a);
    OldOk(d, e, b0, b);
    assert Apart(d.log, a0, b0);
  }

  lemma NextApart(d: Disk, e: Disk, cuts: seq<set<Group>>, a: Batch, b: Batch)
    requires Good(d) && Next(d, e, cuts) && a in e.batches && b in e.batches && a != b
    ensures a.start < |e.log| && b.start < |e.log| && Apart(e.log, a, b)
  {
    if Old(d, a) {
      var a0 :| a0 in d.batches && Same(a0, a);
      ApartFromOld(d, e, cuts, a0, a, b);
    } else if Old(d, b) {
      var b0 :| b0 in d.batches && Same(b0, b);
      ApartFromOld(d, e, cuts, b0, b, a);
    } else {
      var g, i: nat :| MadeFrom(a, d, e.log, cuts, g, i);
      var h, j: nat :| MadeFrom(b, d, e.log, cuts, h, j);
      ApartNewNew(d, e, cuts, a, g, i, b, h, j);
    }
  }

  lemma ApartFromOld(d: Disk, e: Disk, cuts: seq<set<Group>>, a0: Batch, a: Batch, b: Batch)
    requires Good(d) && Next(d, e, cuts) && a in e.batches && b in e.batches && a != b && a0 in d.batches && Same(a0, a)
    ensures a.start < |e.log| && b.start < |e.log| && Apart(e.log, a, b) && Apart(e.log, b, a)
  {
    if Old(d, b) {
      var b0 :| b0 in d.batches && Same(b0, b);
      DifferentIds(e.batches, a, b);
      ApartOldOld(d, e, a0, a, b0, b);
      ApartOldOld(d, e, b0, b, a0, a);
    } else {
      var g, i: nat :| MadeFrom(b, d, e.log, cuts, g, i);
      ApartOldNew(d, e, cuts, a0, a, b, g, i);
    }
  }

  lemma DifferentIds(batches: seq<Batch>, a: Batch, b: Batch)
    requires DistinctIds(batches) && a in batches && b in batches && a != b
    ensures a.id != b.id
  {
    var i :| 0 <= i < |batches| && batches[i] == a;
    var j :| 0 <= j < |batches| && batches[j] == b;
    assert i != j;
  }

  /** A row that a recovered batch claimed before the run is in the chunk of a batch after it. */
  lemma StillCovered(d: Disk, e: Disk, cuts: seq<set<Group>>, b: Batch, q: nat)
    requires Good(d) && Next(d, e, cuts) && b in d.batches && Passes(d.log, b)
    requires b.start <= q < b.end && Member(d.log, q, GroupOf(d.log, b))
    ensures exists a :: a in e.batches && q in a.home
  {
    assert Covered(d, b);
    var a0 :| a0 in d.batches && q in a0.home;
    assert Member(d.log, q, GroupOf(d.log, a0));
    PassingGroup(d.log, a0);
    PassingGroup(d.log, b);
    var a :| a in e.batches && Same(a0, a);
    assert q in a.home;
  }

  lemma NextCovered(d: Disk, e: Disk, cuts: seq<set<Group>>, b: Batch, q: nat)
    requires Good(d) && Next(d, e, cuts) && b in e.batches && BatchOk(e.log, b) && Passes(e.log, b)
    requires b.start <= q < b.end && Member(e.log, q, GroupOf(e.log, b))
    ensures exists a :: a in e.batches && q in a.home
  {
    var more := e.log[|d.log|..];
    assert e.log == d.log + more;
    if Old(d, b) {
      var b0 :| b0 in d.batches && Same(b0, b);
      OldOk(d, e, b0, b);
      MemberExtends(d.log, more, q, GroupOf(e.log, b));
      StillCovered(d, e, cuts, b0, q);
    } else {
      var g, i: nat :| MadeFrom(b, d, e.log, cuts, g, i);
      NewOk(d, e, cuts, b, g, i);
      if q in Skipped(d, e.log) {
        var c :| c in d.batches && Recovered(d.log, c) && Claims(d.log, c, e.log, q);
        ClaimedIff(d.log, e.log, c, q);
        StillCovered(d, e, cuts, c, q);
      } else {
        assert Joins(e.log, Skipped(d, e.log), q, g);
      }
    }
  }

  lemma NextOk(d: Disk, e: Disk, cuts: seq<set<Group>>, b: Batch)
    requires Good(d) && Next(d, e, cuts) && b in e.batches
    ensures BatchOk(e.log, b)
  {
    if Old(d, b) {
      var a :| a in d.batches && Same(a, b);
      OldOk(d, e, a, b);
    } else {
      var g, i: nat :| MadeFrom(b, d, e.log, cuts, g, i);
      NewOk(d, e, cuts, b, g, i);
    }
  }

  lemma NextGood(d: Disk, e: Disk, cuts: seq<set<Group>>)
    requires Good(d) && Next(d, e, cuts)
    ensures Good(e)
  {
    forall b | b in e.batches ensures BatchOk(e.log, b) { NextOk(d, e, cuts, b); }
    forall a, b | a in e.batches && b in e.batches && a != b ensures Apart(e.log, a, b) { NextApart(d, e, cuts, a, b); }
    forall b | b in e.batches && Passes(e.log, b) ensures Covered(e, b) {
      forall q: nat | b.start <= q < b.end && Member(e.log, q, GroupOf(e.log, b))
        ensures exists a :: a in e.batches && q in a.home {
        NextCovered(d, e, cuts, b, q);
      }
    }
  }

  /** After any number of restarts and crashes. */
  lemma {:induction false} HistoryGood(disks: seq<Disk>, cuts: seq<seq<set<Group>>>, k: nat)
    requires History(disks, cuts) && k < |disks|
    ensures Good(disks[k])
    decreases k
  {
    if k > 0 {
      HistoryGood(disks, cuts, k - 1);
      NextGood(disks[k - 1], disks[k], cuts[k - 1]);
    }
  }

  // ---------------------------------------------------------------- one restart, counted row by row

  /** The accepted batches that bring the row although it was not in their chunk. */
  function Strays(d: Disk, q: nat): set<nat> {
    set i | 0 <= i < |d.batches| && Accepts(d.log, d.batches, i) && q in FileRows(d.log, d.batches[i])
        && q !in d.batches[i].home
  }

  /** The row is in the chunk of a recovered batch that the catalog refuses. */
  predicate Lost(d: Disk, q: nat) {
    exists i ::
      0 <= i < |d.batches| && Recovered(d.log, d.batches[i]) && q in d.batches[i].home && !Accepts(d.log, d.batches, i)
  }

  /** A present row of a chunk: its batch is recovered, claims it, and has it in its file. */
  lemma HomeFacts(d: Disk, b: Batch, q: nat)
    requires Good(d) && b in d.batches && q in b.home && Present(d.log, q)
    ensures Recovered(d.log, b) && q in FileRows(d.log, b) && !Absorbed(d, q)
  {
    assert Member(d.log, q, GroupOf(d.log, b));
    PassingGroup(d.log, b);
    ClaimedIff(d.log, d.log, b, q);
  }

  lemma OneHome(d: Disk, i: nat, j: nat, q: nat)
    requires Good(d) && i < |d.batches| && j < |d.batches| && q in d.batches[i].home && q in d.batches[j].home
    ensures i == j
  {
    var a, b := d.batches[i], d.batches[j];
    assert a in d.batches && b in d.batches;
    assert i != j ==> a.id != b.id;
    assert a != b ==> Apart(d.log, a, b);
  }

  lemma ClaimedHasHome(d: Disk, b: Batch, q: nat)
    requires Good(d) && Present(d.log, q) && b in d.batches && Recovered(d.log, b)
    ensures Claims(d.log, b, d.log, q) ==> exists a :: a in d.batches && q in a.home
  {
    ClaimedIff(d.log, d.log, b, q);
    assert Covered(d, b);
  }

  lemma HomelessAbsorbed(d: Disk, q: nat)
    requires Good(d) && Present(d.log, q) && forall b | b in d.batches :: q !in b.home
    ensures Absorbed(d, q) && !Lost(d, q)
  {
    forall b | b in d.batches && Recovered(d.log, b) ensures !Claims(d.log, b, d.log, q) { ClaimedHasHome(d, b, q); }
    forall i | 0 <= i < |d.batches| ensures q !in d.batches[i].home { assert d.batches[i] in d.batches; }
  }

  /** Where a row is at home there is no second chunk and no absorption; the row is lost if its batch is refused. */
  lemma HomeDecides(d: Disk, i: nat, q: nat)
    requires Good(d) && i < |d.batches| && q in d.batches[i].home && Present(d.log, q)
    ensures !Absorbed(d, q) && (Lost(d, q) <==> !Accepts(d.log, d.batches, i))
    ensures Owners(d, q) == Strays(d, q) + (if Accepts(d.log, d.batches, i) then {i} else {}) && i !in Strays(d, q)
  {
    HomeFacts(d, d.batches[i], q);
    forall j: nat | j < |d.batches| && q in d.batches[j].home ensures j == i { OneHome(d, i, j, q); }
    OwnersWithHome(d, i, q);
  }

  lemma OwnersWithHome(d: Disk, i: nat, q: nat)
    requires i < |d.batches| && q in d.batches[i].home && q in FileRows(d.log, d.batches[i])
             && Recovered(d.log, d.batches[i])
    requires forall j: nat | j < |d.batches| && q in d.batches[j].home :: j == i
    ensures Owners(d, q) == Strays(d, q) + (if Accepts(d.log, d.batches, i) then {i} else {}) && i !in Strays(d, q)
    ensures Lost(d, q) <==> !Accepts(d.log, d.batches, i)
  {
  }

  lemma OwnersWithoutHome(d: Disk, q: nat)
    requires forall b | b in d.batches :: q !in b.home
    ensures Owners(d, q) == Strays(d, q)
  {
    forall i | 0 <= i < |d.batches| ensures q !in d.batches[i].home { assert d.batches[i] in d.batches; }
  }

  /** One for its own place, less one if its batch is refused, and one for every batch that brings it besides. */
  lemma CopiesAre(d: Disk, q: nat)
    requires Good(d) && Present(d.log, q)
    ensures Copies(d, q) + (if Lost(d, q) then 1 else 0) == 1 + |Strays(d, q)|
  {
    if i: nat :| i < |d.batches| && q in d.batches[i].home {
      HomeDecides(d, i, q);
      CountHome(d, i, q);
    } else {
      HomelessCopies(d, q);
    }
  }

  lemma CountHome(d: Disk, i: nat, q: nat)
    requires i < |d.batches| && !Absorbed(d, q) && (Lost(d, q) <==> !Accepts(d.log, d.batches, i)) && i !in Strays(d, q)
    requires Owners(d, q) == Strays(d, q) + (if Accepts(d.log, d.batches, i) then {i} else {})
    ensures Copies(d, q) + (if Lost(d, q) then 1 else 0) == 1 + |Strays(d, q)|
  {
  }

  lemma HomelessCopies(d: Disk, q: nat)
    requires Good(d) && Present(d.log, q) && forall i: nat | i < |d.batches| :: q !in d.batches[i].home
    ensures Absorbed(d, q) && !Lost(d, q) && Owners(d, q) == Strays(d, q)
  {
    HomelessAbsorbed(d, q);
    OwnersWithoutHome(d, q);
  }

  /** After a restart every row of the present era is there exactly once if and only if each row that a refusal loses is
      brought along by exactly one batch, and no other row is. */
  lemma ExactlyOnceIff(d: Disk)
    requires Good(d)
    ensures Once(d) <==> forall q: nat | Present(d.log, q) :: |Strays(d, q)| == if Lost(d, q) then 1 else 0
  {
    forall q: nat | Present(d.log, q)
      ensures Copies(d, q) == 1 <==> |Strays(d, q)| == if Lost(d, q) then 1 else 0
    {
      CopiesAre(d, q);
    }
  }

  // ---------------------------------------------------------------- the two causes, told from the log

  /** No client key lies in the intervals of two recovered batches. */
  ghost predicate KeysDisjoint(d: Disk) {
    forall i, j | 0 <= i < j < |d.batches| && Recovered(d.log, d.batches[i]) && Recovered(d.log, d.batches[j]) ::
      KeysOf(d.log, d.batches[i]) !! KeysOf(d.log, d.batches[j])
  }

  /** The interval of a batch that is or was written again holds no row of its table with another key, and no other
      recovered batch of its key starts inside. */
  ghost predicate CleanIntervals(d: Disk) {
    forall b | b in d.batches && Recovered(d.log, b) && b.Redo() ::
      && (forall q | q in RedoRows(d.log, b) :: d.log[q].key == b.key)
      && (forall a | a in d.batches && a != b && Recovered(d.log, a) && a.key == b.key :: !(b.start <= a.start < b.end))
  }

  lemma SomeRefusedIff(d: Disk)
    ensures KeysDisjoint(d)
            <==> forall i | 0 <= i < |d.batches| && Recovered(d.log, d.batches[i]) :: Accepts(d.log, d.batches, i)
  {
  }

  lemma RefusedLosesItsFirst(d: Disk, i: nat)
    requires Good(d) && i < |d.batches| && Recovered(d.log, d.batches[i]) && !Accepts(d.log, d.batches, i)
    ensures Present(d.log, d.batches[i].start) && Lost(d, d.batches[i].start)
  {
    var b := d.batches[i];
    assert b in d.batches;
    PassingGroup(d.log, b);
    assert Member(d.log, b.start, GroupOf(d.log, b));
  }

  /** The rows that a recovered batch is redone with are all of the present era. */
  lemma RedonePresent(d: Disk, b: Batch, q: nat)
    requires Good(d) && b in d.batches && Recovered(d.log, b) && q in RedoRows(d.log, b)
    ensures Present(d.log, q)
    ensures d.log[q].key == b.key ==> Member(d.log, q, GroupOf(d.log, b))
  {
    var t := b.key.table;
    PassingGroup(d.log, b);
    assert Member(d.log, b.start, GroupOf(d.log, b));
    EraGateIff(d.log, b.start, |d.log|, t);
    EraGateIff(d.log, b.start, q, t);
  }

  /** A row of its interval that a recovered batch has not: it belongs to another key, or to a batch that starts
      inside. */
  lemma StrayKinds(d: Disk, b: Batch, q: nat)
    requires Good(d) && b in d.batches && Recovered(d.log, b) && q in RedoRows(d.log, b) && q !in b.home
             && d.log[q].key == b.key
    ensures exists a :: a in d.batches && a != b && Recovered(d.log, a) && a.key == b.key && b.start <= a.start < b.end
  {
    var a := HolderOf(d, b, q);
    StartsInside(d, a, b, q);
  }

  lemma HolderOf(d: Disk, b: Batch, q: nat) returns (a: Batch)
    requires Good(d) && b in d.batches && Recovered(d.log, b) && q in RedoRows(d.log, b) && d.log[q].key == b.key
    ensures a in d.batches && q in a.home && Recovered(d.log, a) && Member(d.log, q, GroupOf(d.log, b))
  {
    RedonePresent(d, b, q);
    assert Covered(d, b);
    a :| a in d.batches && q in a.home;
    HomeFacts(d, a, q);
  }

  lemma StartsInside(d: Disk, a: Batch, b: Batch, q: nat)
    requires Good(d) && a in d.batches && b in d.batches && a != b && q in a.home && b.start <= q < b.end
    requires b.start < |d.log| && Member(d.log, q, GroupOf(d.log, b))
    ensures a.key == b.key && b.start <= a.start < b.end
  {
    assert Member(d.log, q, GroupOf(d.log, a));
    assert Apart(d.log, a, b);
  }

  /** Seen from the log and the recorded intervals: there are no strays exactly if the intervals are clean. */
  lemma NoStraysIff(d: Disk)
    requires Good(d)
    ensures CleanIntervals(d) <==> forall b | b in d.batches && Recovered(d.log, b) :: FileRows(d.log, b) <= b.home
  {
    forall b | b in d.batches && Recovered(d.log, b) && b.Redo()
      ensures RedoRows(d.log, b) <= b.home <==>
                && (forall q | q in RedoRows(d.log, b) :: d.log[q].key == b.key)
                && (forall a | a in d.batches && a != b && Recovered(d.log, a)
                    && a.key == b.key :: !(b.start <= a.start < b.end))
    {
      BatchClean(d, b);
    }
  }

  lemma BatchClean(d: Disk, b: Batch)
    requires Good(d) && b in d.batches && Recovered(d.log, b)
    ensures RedoRows(d.log, b) <= b.home <==>
              && (forall q | q in RedoRows(d.log, b) :: d.log[q].key == b.key)
              && (forall a | a in d.batches && a != b && Recovered(d.log, a)
                  && a.key == b.key :: !(b.start <= a.start < b.end))
  {
    if RedoRows(d.log, b) <= b.home {
      forall q | q in RedoRows(d.log, b) ensures d.log[q].key == b.key { assert Member(d.log, q, GroupOf(d.log, b)); }
      forall a | a in d.batches && a != b && Recovered(d.log, a)
          && a.key == b.key ensures !(b.start <= a.start < b.end) {
        assert Member(d.log, a.start, GroupOf(d.log, a));
        assert Apart(d.log, a, b);
      }
    } else {
      var q :| q in RedoRows(d.log, b) && q !in b.home;
      if d.log[q].key == b.key { StrayKinds(d, b, q); }
    }
  }

  lemma CleanNoStrays(d: Disk, q: nat)
    requires Good(d) && CleanIntervals(d)
    ensures Strays(d, q) == {}
  {
    NoStraysIff(d);
    forall i | 0 <= i < |d.batches| ensures i !in Strays(d, q) { assert d.batches[i] in d.batches; }
  }

  lemma UncleanBatch(d: Disk) returns (i: nat, q: nat)
    requires Good(d) && !CleanIntervals(d)
    ensures i < |d.batches| && Recovered(d.log, d.batches[i]) && Present(d.log, q)
    ensures q in FileRows(d.log, d.batches[i]) && q !in d.batches[i].home
  {
    var b := UncleanOne(d);
    i :| 0 <= i < |d.batches| && d.batches[i] == b;
    q :| q in FileRows(d.log, b) && q !in b.home;
    RedonePresent(d, b, q);
  }

  lemma UncleanOne(d: Disk) returns (b: Batch)
    requires Good(d) && !CleanIntervals(d)
    ensures b in d.batches && Recovered(d.log, b) && !(FileRows(d.log, b) <= b.home)
  {
    NoStraysIff(d);
    b :| b in d.batches && Recovered(d.log, b) && !(FileRows(d.log, b) <= b.home);
  }

  lemma UncleanStrays(d: Disk) returns (q: nat)
    requires Good(d) && KeysDisjoint(d) && !CleanIntervals(d)
    ensures Present(d.log, q) && Strays(d, q) != {}
  {
    var i: nat;
    i, q := UncleanBatch(d);
    AllAccepted(d, i);
    StrayAt(d, i, q);
  }

  lemma StrayAt(d: Disk, i: nat, q: nat)
    requires i < |d.batches| && Accepts(d.log, d.batches, i) && q in FileRows(d.log, d.batches[i])
             && q !in d.batches[i].home
    ensures i in Strays(d, q)
  {
  }

  lemma AllAccepted(d: Disk, i: nat)
    requires KeysDisjoint(d) && i < |d.batches| && Recovered(d.log, d.batches[i])
    ensures Accepts(d.log, d.batches, i)
  {
    SomeRefusedIff(d);
  }

  lemma SomeRefused(d: Disk) returns (i: nat)
    requires !KeysDisjoint(d)
    ensures i < |d.batches| && Recovered(d.log, d.batches[i]) && !Accepts(d.log, d.batches, i)
  {
    SomeRefusedIff(d);
    i :| i < |d.batches| && Recovered(d.log, d.batches[i]) && !Accepts(d.log, d.batches, i);
  }

  lemma NothingLost(d: Disk, q: nat)
    requires KeysDisjoint(d)
    ensures !Lost(d, q)
  {
    SomeRefusedIff(d);
  }

  /** Without shared client keys: exactly once if and only if the intervals are clean. */
  lemma OnceIffClean(d: Disk)
    requires Good(d) && KeysDisjoint(d)
    ensures Once(d) <==> CleanIntervals(d)
  {
    if CleanIntervals(d) {
      forall q: nat | Present(d.log, q) ensures Copies(d, q) == 1 {
        CopiesAre(d, q);
        CleanNoStrays(d, q);
        NothingLost(d, q);
      }
    } else {
      var q := UncleanStrays(d);
      CopiesAre(d, q);
      NothingLost(d, q);
    }
  }

  /** With clean intervals: exactly once if and only if no client key is shared. */
  lemma OnceIffKeysDisjoint(d: Disk)
    requires Good(d) && CleanIntervals(d)
    ensures Once(d) <==> KeysDisjoint(d)
  {
    if KeysDisjoint(d) {
      OnceIffClean(d);
    } else {
      var i := SomeRefused(d);
      RefusedLosesItsFirst(d, i);
      CopiesAre(d, d.batches[i].start);
      CleanNoStrays(d, d.batches[i].start);
    }
  }

  /** After each of any number of crashes: the exact condition row by row; and if at most one of the two causes of error
      is present, the condition in terms of the log and the recorded intervals. */
  lemma EveryRestart(disks: seq<Disk>, cuts: seq<seq<set<Group>>>, k: nat)
    requires History(disks, cuts) && k < |disks|
    ensures var d := disks[k];
            && (Once(d) <==> forall q: nat | Present(d.log, q) :: |Strays(d, q)| == if Lost(d, q) then 1 else 0)
            && (KeysDisjoint(d) || CleanIntervals(d) ==> (Once(d) <==> KeysDisjoint(d) && CleanIntervals(d)))
  {
    HistoryGood(disks, cuts, k);
    ExactlyOnceIff(disks[k]);
    if KeysDisjoint(disks[k]) { OnceIffClean(disks[k]); }
    if CleanIntervals(disks[k]) { OnceIffKeysDisjoint(disks[k]); }
  }
}

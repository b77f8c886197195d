/** The write-ahead log: eras of a table, and how the rows of one key are gathered into chunks. */
module WalLog {
  import opened Common
  import opened CatalogModel

  datatype Key = Key(table: string, shard: string, window: string)

  datatype Ddl = Create | Drop | Other

  /** Records are numbered by their position. `client` is the client key of a data record, "" for none. A statement
      carries the epoch its writer saw, 0 if unknown. */
  datatype Record =
    | Rows(key: Key, client: string)
    | DdlRecord(op: Ddl, table: string)
    | Deleted(table: string, entries: seq<Dv>, epoch: nat)
    | Updated(table: string, updId: string, entries: seq<Dv>, files: seq<File>, epoch: nat)
    | Purged(table: string, purgeId: string, epoch: nat)
    | Otherwise

  datatype Life = Life(alive: bool, epoch: nat)

  function Observe(l: Life, r: Record, table: string): Life {
    if !r.DdlRecord? || r.table != table then l
    else match r.op
      case Create => Life(true, l.epoch + 1)
      case Drop => l.(alive := false)
      case Other => l
  }

  /** The table after the first `n` records: it starts alive in epoch 0, and every creation starts a new epoch. */
  function LifeAfter(log: seq<Record>, n: nat, table: string): Life
    requires n <= |log|
  {
    if n == 0 then Life(true, 0) else Observe(LifeAfter(log, n - 1, table), log[n - 1], table)
  }

  /** The loop over the time line of definitions, up to and including position `at`. */
  method LivenessAt(timeline: seq<(nat, Ddl, string)>, at: nat, table: string, ghost log: seq<Record>)
    returns (alive: bool, epoch: nat)
    requires Timeline(log, timeline) && at < |log|
    ensures Life(alive, epoch) == LifeAfter(log, at + 1, table)
  {
    alive, epoch := true, 0;
    ghost var done := 0;
    for i := 0 to |timeline|
      invariant done == (if i == 0 then 0 else Min(timeline[i - 1].0, at) + 1)
      invariant Life(alive, epoch) == LifeAfter(log, done, table)
    {
      var (s, op, t) := timeline[i];
      ghost var next := Min(s, at) + 1;
      QuietBetween(log, timeline, i, done, Min(s, at + 1), table);
      if s <= at && t == table {
        match op {
          case Create => alive, epoch := true, epoch + 1;
          case Drop => alive := false;
          case Other =>
        }
      }
      done := next;
    }
    QuietBetween(log, timeline, |timeline|, done, at + 1, table);
  }

  /** `timeline` lists the definitions of the log in order. */
  ghost predicate Timeline(log: seq<Record>, timeline: seq<(nat, Ddl, string)>) {
    && (forall k | 0 <= k < |timeline| ::
          timeline[k].0 < |log| && log[timeline[k].0] == DdlRecord(timeline[k].1, timeline[k].2))
    && (forall i, k | 0 <= i < k < |timeline| :: timeline[i].0 < timeline[k].0)
    && (forall j | 0 <= j < |log| && log[j].DdlRecord? :: exists k :: 0 <= k < |timeline| && timeline[k].0 == j)
  }

  lemma {:induction false} Quiet(log: seq<Record>, a: nat, b: nat, table: string)
    requires a <= b <= |log| && forall j | a <= j < b :: !log[j].DdlRecord?
    ensures LifeAfter(log, b, table) == LifeAfter(log, a, table)
    decreases b - a
  {
    if a < b { Quiet(log, a, b - 1, table); }
  }

  /** Between two neighbours of the time line the log defines nothing. */
  lemma QuietBetween(log: seq<Record>, timeline: seq<(nat, Ddl, string)>, i: nat, a: nat, b: nat, table: string)
    requires Timeline(log, timeline) && i <= |timeline| && b <= |log|
    requires i > 0 ==> a > timeline[i - 1].0 || a >= b
    requires i < |timeline| ==> b <= timeline[i].0
    ensures a <= b ==> LifeAfter(log, b, table) == LifeAfter(log, a, table)
  {
    if a < b {
      forall j | a <= j < b ensures !log[j].DdlRecord? {
        if log[j].DdlRecord? {
          var k :| 0 <= k < |timeline| && timeline[k].0 == j;
        }
      }
      Quiet(log, a, b, table);
    }
  }

  // ---------------------------------------------------------------- eras

  lemma {:induction false} LifeGrows(log: seq<Record>, a: nat, b: nat, table: string)
    requires a <= b <= |log|
    ensures LifeAfter(log, a, table).epoch <= LifeAfter(log, b, table).epoch
    decreases b - a
  {
    if a < b { LifeGrows(log, a, b - 1, table); }
  }

  /** A creation or a drop of the table. */
  predicate Defines(r: Record, table: string) {
    r.DdlRecord? && r.table == table && !r.op.Other?
  }

  /** The gate between two positions: alive at both, in the same epoch. It passes exactly if the table was alive
      at the first and nothing defined it in between. */
  lemma {:induction false} EraGateIff(log: seq<Record>, a: nat, b: nat, table: string)
    requires a <= b <= |log|
    ensures var x, y := LifeAfter(log, a, table), LifeAfter(log, b, table);
            x.alive && y.alive && x.epoch == y.epoch <==> x.alive && forall j | a <= j < b :: !Defines(log[j], table)
    decreases b - a
  {
    if a < b {
      EraGateIff(log, a, b - 1, table);
      LifeGrows(log, a, b - 1, table);
      if LifeAfter(log, b - 1, table).alive {
      } else if LifeAfter(log, a, table).alive {
        // dropped in between: only a creation revives it, in a later epoch
        DeadMeansDefined(log, a, b - 1, table);
      }
    }
  }

  lemma {:induction false} DeadMeansDefined(log: seq<Record>, a: nat, b: nat, table: string)
    requires a <= b <= |log| && LifeAfter(log, a, table).alive && !LifeAfter(log, b, table).alive
    ensures exists j :: a <= j < b && Defines(log[j], table)
    decreases b - a
  {
    if !Defines(log[b - 1], table) { DeadMeansDefined(log, a, b - 1, table); }
  }

  // ---------------------------------------------------------------- gathering rows into chunks

  /** The rows that may share a chunk. */
  datatype Group = Group(key: Key, epoch: nat)

  function GroupAt(log: seq<Record>, q: nat): Group
    requires q < |log| && log[q].Rows?
  {
    Group(log[q].key, LifeAfter(log, q, log[q].key.table).epoch)
  }

  predicate Member(log: seq<Record>, q: nat, g: Group) {
    q < |log| && log[q].Rows? && LifeAfter(log, q, log[q].key.table).alive && GroupAt(log, q) == g
  }

  /** For each group its chunks, oldest first, as lists of positions; and the groups whose last chunk is open. */
  datatype Gathered = Gathered(chunks: map<Group, seq<seq<nat>>>, open: set<Group>)

  function Take(s: Gathered, g: Group, q: nat): Gathered {
    var list := if g in s.chunks then s.chunks[g] else [];
    var grown := if g in s.open && list != [] then list[..|list| - 1] + [list[|list| - 1] + [q]] else list + [[q]];
    Gathered(s.chunks[g := grown], s.open + {g})
  }

  /** After the first `n` records, leaving out the rows in `skip`. Chunks may be closed at any time: after record `i`
      those of `cuts[i]` are. */
  function Gather(log: seq<Record>, cuts: seq<set<Group>>, skip: set<nat>, n: nat): Gathered
    requires n <= |log| == |cuts|
  {
    if n == 0 then Gathered(map[], {})
    else
      var s, q := Gather(log, cuts, skip, n - 1), n - 1;
      var taken := log[q].Rows? && LifeAfter(log, q, log[q].key.table).alive && q !in skip;
      var t := if taken then Take(s, GroupAt(log, q), q) else s;
      t.(open := t.open - cuts[q])
  }

  predicate Joins(log: seq<Record>, skip: set<nat>, q: nat, g: Group) {
    Member(log, q, g) && q !in skip
  }

  /** Nonempty lists of ascending positions, one list entirely before the next. */
  ghost predicate InSequence(list: seq<seq<nat>>) {
    && (forall i | 0 <= i < |list| :: list[i] != [])
    && (forall i, a, b | 0 <= i < |list| && 0 <= a < b < |list[i]| :: list[i][a] < list[i][b])
    && (forall i, j, x, y | 0 <= i < j < |list| && x in list[i] && y in list[j] :: x < y)
  }

  ghost predicate Holds(list: seq<seq<nat>>, q: nat) {
    exists i :: 0 <= i < |list| && q in list[i]
  }

  ghost predicate Partitioned(log: seq<Record>, skip: set<nat>, n: nat, s: Gathered) {
    && (forall g | g in s.open :: g in s.chunks)
    && (forall g | g in s.chunks :: s.chunks[g] != [] && InSequence(s.chunks[g]))
    && (forall g, q: nat | g in s.chunks :: Holds(s.chunks[g], q) <==> q < n && Joins(log, skip, q, g))
    && (forall g, q: nat | q < n && Joins(log, skip, q, g) :: g in s.chunks)
  }

  lemma GrownLast(list: seq<seq<nat>>, q: nat)
    requires list != [] && InSequence(list) && forall x: nat | Holds(list, x) :: x < q
    ensures var grown := list[..|list| - 1] + [list[|list| - 1] + [q]];
            InSequence(grown) && forall x: nat :: Holds(grown, x) <==> Holds(list, x) || x == q
  {
    var last := |list| - 1;
    var grown := list[..last] + [list[last] + [q]];
    assert forall i | 0 <= i < last :: grown[i] == list[i];
    assert grown[last] == list[last] + [q];
    forall i, x: nat | 0 <= i < |list| && x in list[i] ensures x < q {
      assert Holds(list, x);
    }
    forall a | 0 <= a < |list[last]| ensures list[last][a] < q {
      assert list[last][a] in list[last];
    }
    forall x: nat ensures Holds(grown, x) <==> Holds(list, x) || x == q {
      if Holds(list, x) {
        var i :| 0 <= i < |list| && x in list[i];
        assert x in grown[i];
      }
      if x == q { assert x in grown[last]; }
      if Holds(grown, x) && x != q {
        var i :| 0 <= i < |grown| && x in grown[i];
        assert x in list[i];
      }
    }
  }

  lemma StartedNew(list: seq<seq<nat>>, q: nat)
    requires InSequence(list) && forall x: nat | Holds(list, x) :: x < q
    ensures InSequence(list + [[q]]) && forall x: nat :: Holds(list + [[q]], x) <==> Holds(list, x) || x == q
  {
    var grown := list + [[q]];
    assert forall i | 0 <= i < |list| :: grown[i] == list[i];
    forall i, x: nat | 0 <= i < |list| && x in list[i] ensures x < q {
      assert Holds(list, x);
    }
    forall x: nat ensures Holds(grown, x) <==> Holds(list, x) || x == q {
      if Holds(list, x) {
        var i :| 0 <= i < |list| && x in list[i];
        assert x in grown[i];
      }
      if x == q { assert x in grown[|list|]; }
      if Holds(grown, x) && x != q {
        var i :| 0 <= i < |grown| && x in grown[i];
        assert x in list[i];
      }
    }
  }

  lemma TakePartitions(log: seq<Record>, skip: set<nat>, s: Gathered, g: Group, q: nat)
    requires Partitioned(log, skip, q, s) && Joins(log, skip, q, g)
    ensures Partitioned(log, skip, q + 1, Take(s, g, q))
  {
    var list := if g in s.chunks then s.chunks[g] else [];
    forall x: nat | Holds(list, x) ensures x < q {
    }
    if g in s.open { GrownLast(list, q); } else { StartedNew(list, q); }
    var t := Take(s, g, q);
    forall h, x: nat | h in t.chunks ensures Holds(t.chunks[h], x) <==> x < q + 1 && Joins(log, skip, x, h) {
      if h != g { assert Holds(s.chunks[h], x) <==> x < q && Joins(log, skip, x, h); }
      if h == g && g in s.chunks { assert Holds(list, x) <==> x < q && Joins(log, skip, x, g); }
    }
  }

  lemma {:induction false} GatherPartitions(log: seq<Record>, cuts: seq<set<Group>>, skip: set<nat>, n: nat)
    requires n <= |log| == |cuts|
    ensures Partitioned(log, skip, n, Gather(log, cuts, skip, n))
  {
    if n > 0 {
      var s, q := Gather(log, cuts, skip, n - 1), n - 1;
      GatherPartitions(log, cuts, skip, q);
      if log[q].Rows? && LifeAfter(log, q, log[q].key.table).alive && q !in skip {
        TakePartitions(log, skip, s, GroupAt(log, q), q);
      } else {
        assert forall g :: !Joins(log, skip, q, g);
      }
    }
  }

  // ---------------------------------------------------------------- what that says about one chunk

  /** The half-open interval around the positions of a chunk. */
  ghost predicate Hull(chunk: seq<nat>, start: nat, end: nat) {
    chunk != [] && start in chunk && end > 0 && end - 1 in chunk && forall q | q in chunk :: start <= q < end
  }

  ghost predicate IsChunk(log: seq<Record>, cuts: seq<set<Group>>, skip: set<nat>, g: Group, i: nat) {
    |log| == |cuts| && var s := Gather(log, cuts, skip, |log|); g in s.chunks && i < |s.chunks[g]|
  }

  ghost function ChunkOf(log: seq<Record>, cuts: seq<set<Group>>, skip: set<nat>, g: Group, i: nat): seq<nat>
    requires IsChunk(log, cuts, skip, g, i)
  {
    Gather(log, cuts, skip, |log|).chunks[g][i]
  }

  /** A chunk holds every row of its group within its interval that is not left out, and no other. */
  lemma ChunkFillsHull(log: seq<Record>, cuts: seq<set<Group>>, skip: set<nat>, g: Group, i: nat, start: nat, end: nat,
                       q: nat)
    requires IsChunk(log, cuts, skip, g, i) && Hull(ChunkOf(log, cuts, skip, g, i), start, end)
    ensures q in ChunkOf(log, cuts, skip, g, i) <==> start <= q < end && Joins(log, skip, q, g)
  {
    GatherPartitions(log, cuts, skip, |log|);
    var list := Gather(log, cuts, skip, |log|).chunks[g];
    assert Holds(list, q) <==> Joins(log, skip, q, g);
    if q in list[i] { assert Holds(list, q); }
    if start <= q < end && Joins(log, skip, q, g) {
      var j :| 0 <= j < |list| && q in list[j];
      assert j == i;
    }
  }

  /** The intervals of two chunks of one group do not meet; the earlier chunk is entirely before. */
  lemma HullsInOrder(log: seq<Record>, cuts: seq<set<Group>>, skip: set<nat>, g: Group, i: nat, j: nat,
                     s1: nat, e1: nat, s2: nat, e2: nat)
    requires i < j && IsChunk(log, cuts, skip, g, i) && IsChunk(log, cuts, skip, g, j)
    requires Hull(ChunkOf(log, cuts, skip, g, i), s1, e1) && Hull(ChunkOf(log, cuts, skip, g, j), s2, e2)
    ensures e1 <= s2
  {
    GatherPartitions(log, cuts, skip, |log|);
    var list := Gather(log, cuts, skip, |log|).chunks[g];
    assert e1 - 1 in list[i] && s2 in list[j];
  }

  /** No row is in two chunks. */
  lemma SameChunk(log: seq<Record>, cuts: seq<set<Group>>, skip: set<nat>, g: Group, i: nat, h: Group, j: nat, q: nat)
    requires IsChunk(log, cuts, skip, g, i) && IsChunk(log, cuts, skip, h, j)
    requires q in ChunkOf(log, cuts, skip, g, i) && q in ChunkOf(log, cuts, skip, h, j)
    ensures g == h && i == j
  {
    GatherPartitions(log, cuts, skip, |log|);
    var s := Gather(log, cuts, skip, |log|);
    assert Holds(s.chunks[g], q) && Holds(s.chunks[h], q);
  }

  // ---------------------------------------------------------------- the log grows

  lemma {:induction false} LifeExtends(log: seq<Record>, more: seq<Record>, n: nat, table: string)
    requires n <= |log|
    ensures LifeAfter(log + more, n, table) == LifeAfter(log, n, table)
  {
    if n > 0 { LifeExtends(log, more, n - 1, table); }
  }

  lemma MemberExtends(log: seq<Record>, more: seq<Record>, q: nat, g: Group)
    requires q < |log|
    ensures Member(log + more, q, g) == Member(log, q, g)
  {
    if log[q].Rows? { LifeExtends(log, more, q, log[q].key.table); }
  }
}

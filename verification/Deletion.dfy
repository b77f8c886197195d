/** Applying a deletion vector to the rows of a file, batch by batch or by ranges of kept rows. */
module Deletion {
  import opened Common
  import opened CatalogModel

  type Row = seq<string>

  /** The rows that are not deleted, in order. The first row has position `offset` in its file. */
  function Keep(rows: seq<Row>, deleted: set<nat>, offset: nat): seq<Row>
    decreases |rows|
  {
    if rows == [] then []
    else (if offset in deleted then [] else [rows[0]]) + Keep(rows[1..], deleted, offset + 1)
  }

  function Flatten<T>(batches: seq<seq<T>>): seq<T>
    decreases |batches|
  {
    if batches == [] then [] else batches[0] + Flatten(batches[1..])
  }

  lemma {:induction false} KeepConcat(a: seq<Row>, b: seq<Row>, deleted: set<nat>, offset: nat)
    ensures Keep(a + b, deleted, offset) == Keep(a, deleted, offset) + Keep(b, deleted, offset + |a|)
    decreases |a|
  {
    if a == [] {
      assert a + b == b;
    } else {
      assert (a + b)[1..] == a[1..] + b;
      KeepConcat(a[1..], b, deleted, offset + 1);
    }
  }

  lemma {:induction false} KeepAll(rows: seq<Row>, deleted: set<nat>, offset: nat)
    requires forall i | offset <= i < offset + |rows| :: i !in deleted
    ensures Keep(rows, deleted, offset) == rows
    decreases |rows|
  {
    if rows != [] { KeepAll(rows[1..], deleted, offset + 1); }
  }

  lemma {:induction false} KeepNone(rows: seq<Row>, deleted: set<nat>, offset: nat)
    requires forall i | offset <= i < offset + |rows| :: i in deleted
    ensures Keep(rows, deleted, offset) == []
    decreases |rows|
  {
    if rows != [] { KeepNone(rows[1..], deleted, offset + 1); }
  }

  lemma {:induction false} FlattenAppend<T>(batches: seq<seq<T>>, b: seq<T>)
    ensures Flatten(batches + [b]) == Flatten(batches) + b
    decreases |batches|
  {
    if batches == [] {
      assert batches + [b] == [b] && [b][1..] == [];
    } else {
      assert (batches + [b])[1..] == batches[1..] + [b];
      FlattenAppend(batches[1..], b);
    }
  }

  // ---- batch by batch, with a running offset

  /** The surviving rows of one batch. */
  method Mask(b: seq<Row>, deleted: set<nat>, offset: nat) returns (kept: seq<Row>)
    ensures kept == Keep(b, deleted, offset)
  {
    kept := [];
    for i := 0 to |b|
      invariant kept == Keep(b[..i], deleted, offset)
    {
      if offset + i !in deleted { kept := kept + [b[i]]; }
      assert b[..i + 1] == b[..i] + [b[i]];
      KeepConcat(b[..i], [b[i]], deleted, offset);
    }
    assert b[..|b|] == b;
  }

  predicate Fits(deleted: set<nat>, rowCount: nat) {
    forall p | p in deleted :: p < rowCount
  }

  /** Batches that lose every row are dropped. A vector that names a row the file does not have is refused. */
  method ApplyToBatches(batches: seq<seq<Row>>, deleted: set<nat>, rowCount: nat) returns (r: Result<seq<seq<Row>>>)
    ensures r.Ok? <==> Fits(deleted, rowCount)
    ensures r.Ok? ==> Flatten(r.value) == Keep(Flatten(batches), deleted, 0) && [] !in r.value
  {
    if exists p :: p in deleted && p >= rowCount { return Err(InvalidState); }
    var out: seq<seq<Row>>, offset := [], 0;
    for i := 0 to |batches|
      invariant offset == |Flatten(batches[..i])| && [] !in out
      invariant Flatten(out) == Keep(Flatten(batches[..i]), deleted, 0)
    {
      var kept := Mask(batches[i], deleted, offset);
      assert batches[..i + 1] == batches[..i] + [batches[i]];
      FlattenAppend(batches[..i], batches[i]);
      KeepConcat(Flatten(batches[..i]), batches[i], deleted, 0);
      if kept != [] {
        FlattenAppend(out, kept);
        out := out + [kept];
      }
      offset := offset + |batches[i]|;
    }
    assert batches[..|batches|] == batches;
    return Ok(out);
  }

  // ---- by ranges of kept rows

  function Bits(positions: seq<nat>): set<nat> {
    set p | p in positions
  }

  ghost predicate Covers(ranges: seq<(nat, nat)>, i: nat) {
    exists j :: 0 <= j < |ranges| && ranges[j].0 <= i < ranges[j].1
  }

  /** The ranges are nonempty, in order, within `low..high`. */
  ghost predicate InOrder(ranges: seq<(nat, nat)>, low: nat, high: nat) {
    && (forall j | 0 <= j < |ranges| :: low <= ranges[j].0 < ranges[j].1 <= high)
    && (forall i, j | 0 <= i < j < |ranges| :: ranges[i].1 <= ranges[j].0)
  }

  ghost predicate Complement(ranges: seq<(nat, nat)>, deleted: set<nat>, low: nat, high: nat) {
    InOrder(ranges, low, high) && forall i | low <= i < high :: Covers(ranges, i) <==> i !in deleted
  }

  method KeepRanges(positions: seq<nat>, rowCount: nat) returns (r: Result<seq<(nat, nat)>>)
    requires Rising(positions)
    ensures r.Ok? <==> Fits(Bits(positions), rowCount)
    ensures r.Ok? ==> Complement(r.value, Bits(positions), 0, rowCount)
  {
    var n := |positions|;
    if n > 0 && positions[n - 1] >= rowCount {
      assert positions[n - 1] in Bits(positions);
      return Err(InvalidState);
    }
    var out: seq<(nat, nat)>, start := [], 0;
    for i := 0 to n
      invariant start <= rowCount && start == (if i == 0 then 0 else positions[i - 1] + 1)
      invariant Complement(out, Bits(positions[..i]), 0, start)
    {
      var p := positions[i];
      ghost var before := out;
      if p > start { out := out + [(start, p)]; }
      GapCovered(before, out, positions, i, start);
      start := p + 1;
    }
    assert positions[..n] == positions;
    ghost var before := out;
    if start < rowCount { out := out + [(start, rowCount)]; }
    TailCovered(before, out, Bits(positions), start, rowCount);
    return Ok(out);
  }

  lemma CoversAppend(ranges: seq<(nat, nat)>, last: (nat, nat), i: nat)
    ensures Covers(ranges + [last], i) <==> Covers(ranges, i) || last.0 <= i < last.1
  {
    if Covers(ranges, i) {
      var j :| 0 <= j < |ranges| && ranges[j].0 <= i < ranges[j].1;
      assert (ranges + [last])[j] == ranges[j];
    }
    if last.0 <= i < last.1 { assert (ranges + [last])[|ranges|] == last; }
  }

  lemma TailCovered(before: seq<(nat, nat)>, after: seq<(nat, nat)>, deleted: set<nat>, start: nat, end: nat)
    requires Complement(before, deleted, 0, start) && start <= end
    requires forall p | p in deleted :: !(start <= p < end)
    requires after == if start < end then before + [(start, end)] else before
    ensures Complement(after, deleted, 0, end)
  {
    forall i | 0 <= i < end ensures Covers(after, i) <==> i !in deleted {
      if start < end { CoversAppend(before, (start, end), i); }
    }
  }

  lemma GapCovered(before: seq<(nat, nat)>, after: seq<(nat, nat)>, positions: seq<nat>, i: nat, start: nat)
    requires Rising(positions) && i < |positions| && start == (if i == 0 then 0 else positions[i - 1] + 1)
    requires Complement(before, Bits(positions[..i]), 0, start)
    requires after == if start < positions[i] then before + [(start, positions[i])] else before
    ensures start <= positions[i]
    ensures Complement(after, Bits(positions[..i + 1]), 0, positions[i] + 1)
  {
    var deleted := Bits(positions[..i]);
    forall p | p in deleted ensures p < start {
      var j :| 0 <= j < i && positions[j] == p;
    }
    TailCovered(before, after, deleted, start, positions[i]);
    assert positions[..i + 1] == positions[..i] + [positions[i]];
  }

  /** What a reader that selects these ranges gets. */
  function Slices(rows: seq<Row>, ranges: seq<(nat, nat)>): seq<Row>
    requires forall j | 0 <= j < |ranges| :: ranges[j].0 <= ranges[j].1 <= |rows|
    decreases |ranges|
  {
    if ranges == [] then [] else rows[ranges[0].0..ranges[0].1] + Slices(rows, ranges[1..])
  }

  lemma FirstRange(ranges: seq<(nat, nat)>, deleted: set<nat>, low: nat, high: nat)
    requires ranges != [] && Complement(ranges, deleted, low, high)
    ensures forall i | low <= i < ranges[0].0 :: i in deleted
    ensures forall i | ranges[0].0 <= i < ranges[0].1 :: i !in deleted
  {
    var (a, b) := ranges[0];
    forall i | low <= i < a ensures i in deleted {
      assert !Covers(ranges, i);
    }
    forall i | a <= i < b ensures i !in deleted {
      assert Covers(ranges, i);
    }
  }

  lemma OtherRanges(ranges: seq<(nat, nat)>, deleted: set<nat>, low: nat, high: nat)
    requires ranges != [] && Complement(ranges, deleted, low, high)
    ensures Complement(ranges[1..], deleted, ranges[0].1, high)
  {
    var rest, b := ranges[1..], ranges[0].1;
    forall i | b <= i < high ensures Covers(rest, i) <==> i !in deleted {
      if Covers(ranges, i) {
        var j :| 0 <= j < |ranges| && ranges[j].0 <= i < ranges[j].1;
        assert rest[j - 1] == ranges[j];
      }
      if Covers(rest, i) {
        var j :| 0 <= j < |rest| && rest[j].0 <= i < rest[j].1;
        assert ranges[j + 1] == rest[j];
      }
    }
  }

  lemma KeepMiddle(rows: seq<Row>, deleted: set<nat>, low: nat, a: nat, b: nat)
    requires low <= a <= b <= |rows|
    requires forall i | low <= i < a :: i in deleted
    requires forall i | a <= i < b :: i !in deleted
    ensures Keep(rows[low..], deleted, low) == rows[a..b] + Keep(rows[b..], deleted, b)
  {
    assert rows[low..] == rows[low..a] + rows[a..];
    assert rows[a..] == rows[a..b] + rows[b..];
    KeepConcat(rows[low..a], rows[a..], deleted, low);
    KeepConcat(rows[a..b], rows[b..], deleted, a);
    KeepNone(rows[low..a], deleted, low);
    KeepAll(rows[a..b], deleted, a);
  }

  /** Selecting the complement ranges is the same as dropping the deleted rows. */
  lemma {:induction false} SlicesKeep(rows: seq<Row>, ranges: seq<(nat, nat)>, deleted: set<nat>, low: nat)
    requires low <= |rows| && Complement(ranges, deleted, low, |rows|)
    ensures Slices(rows, ranges) == Keep(rows[low..], deleted, low)
    decreases |ranges|
  {
    if ranges == [] {
      KeepNone(rows[low..], deleted, low);
    } else {
      FirstRange(ranges, deleted, low, |rows|);
      OtherRanges(ranges, deleted, low, |rows|);
      SlicesKeep(rows, ranges[1..], deleted, ranges[0].1);
      KeepMiddle(rows, deleted, low, ranges[0].0, ranges[0].1);
    }
  }
}

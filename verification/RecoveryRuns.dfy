/** Runs in which recovery goes wrong, from an empty log on: each cause on its own, and both making up for each
    other. */
module RecoveryRuns {
  import opened CatalogModel
  import opened WalLog
  import opened WalRecovery
  import opened Restart
  import opened DmlReplay

  const LEFT := Key("t", "left", "w")
  const RIGHT := Key("t", "right", "w")

  lemma NoDefinitions(log: seq<Record>, n: nat, table: string)
    requires n <= |log| && forall j | 0 <= j < |log| :: !log[j].DdlRecord?
    ensures LifeAfter(log, n, table) == Life(true, 0)
  {
    Quiet(log, 0, n, table);
  }

  lemma OneRow(log: seq<Record>, cuts: seq<set<Group>>, skip: set<nat>, n: nat)
    requires n < |log| == |cuts| && forall j | 0 <= j < |log| :: !log[j].DdlRecord?
    ensures var s := Gather(log, cuts, skip, n);
            var t := if !log[n].Rows? || n in skip then s else Take(s, Group(log[n].key, 0), n);
            Gather(log, cuts, skip, n + 1) == t.(open := t.open - cuts[n])
  {
    if log[n].Rows? { NoDefinitions(log, n, log[n].key.table); }
  }

  /** A row joins the only open chunk of its group, or starts one. */
  lemma TakeRow(s: Gathered, g: Group, q: nat)
    ensures g !in s.chunks ==> Take(s, g, q) == Gathered(s.chunks[g := [[q]]], s.open + {g})
    ensures g in s.chunks && g !in s.open
            ==> Take(s, g, q) == Gathered(s.chunks[g := s.chunks[g] + [[q]]], s.open + {g})
    ensures g in s.open && g in s.chunks && |s.chunks[g]| == 1
            ==> Take(s, g, q) == Gathered(s.chunks[g := [s.chunks[g][0] + [q]]], s.open)
  {
    if g !in s.chunks { assert [] + [[q]] == [[q]]; }
    if g in s.open && g in s.chunks && |s.chunks[g]| == 1 {
      assert s.chunks[g][..0] + [s.chunks[g][0] + [q]] == [s.chunks[g][0] + [q]];
      assert s.open + {g} == s.open;
    }
  }

  // ---- a batch made after a restart encloses an older one

  function ThreeRows(): seq<Record> {
    [Rows(LEFT, ""), Rows(LEFT, ""), Rows(LEFT, "")]
  }

  function First(): Batch { Batch("a", LEFT, 1, 2, false, false, {1}) }

  function Second(): Batch { Batch("b", LEFT, 0, 3, true, false, {0, 2}) }

  lemma FirstRunGathers()
    ensures var g := Group(LEFT, 0);
            Gather(ThreeRows(), [{g}, {g}, {}], {}, 3).chunks == map[g := [[0], [1], [2]]]
  {
    var log, g := ThreeRows(), Group(LEFT, 0);
    var cuts: seq<set<Group>> := [{g}, {g}, {}];
    OneRow(log, cuts, {}, 0);
    TakeRow(Gathered(map[], {}), g, 0);
    assert ({} + {g}) - cuts[0] == {} && ({} + {g}) - cuts[1] == {};
    assert Gather(log, cuts, {}, 1) == Gathered(map[g := [[0]]], {});
    OneRow(log, cuts, {}, 1);
    TakeRow(Gathered(map[g := [[0]]], {}), g, 1);
    assert [[0]] + [[1]] == [[0], [1]] && [[0], [1]] + [[2]] == [[0], [1], [2]];
    assert Gather(log, cuts, {}, 2) == Gathered(map[g := [[0], [1]]], {});
    OneRow(log, cuts, {}, 2);
    TakeRow(Gathered(map[g := [[0], [1]]], {}), g, 2);
  }

  lemma SecondRunGathers()
    ensures var g := Group(LEFT, 0);
            Gather(ThreeRows(), [{}, {}, {g}], {1}, 3).chunks == map[g := [[0, 2]]]
  {
    var log, g := ThreeRows(), Group(LEFT, 0);
    var cuts: seq<set<Group>> := [{}, {}, {g}];
    OneRow(log, cuts, {1}, 0);
    TakeRow(Gathered(map[], {}), g, 0);
    assert Gather(log, cuts, {1}, 1) == Gathered(map[g := [[0]]], {g});
    OneRow(log, cuts, {1}, 1);
    OneRow(log, cuts, {1}, 2);
    TakeRow(Gathered(map[g := [[0]]], {g}), g, 2);
    assert [0] + [2] == [0, 2];
  }

  lemma FirstClaims()
    ensures var d := Disk(ThreeRows(), [First()]);
            Recovered(d.log, First()) && Skipped(d, d.log) == {1}
  {
    var log := ThreeRows();
    forall n: nat | n <= 3 ensures LifeAfter(log, n, "t") == Life(true, 0) { NoDefinitions(log, n, "t"); }
    var d := Disk(log, [First()]);
    assert Recovered(log, First()) && First() in d.batches;
    forall q: nat | q < 3 ensures Claims(log, First(), log, q) <==> q == 1 {
    }
    forall q: nat ensures q in Skipped(d, log) <==> q == 1 {
    }
  }

  lemma FirstCrash()
    ensures var g := Group(LEFT, 0); Next(Disk([], []), Disk(ThreeRows(), [First()]), [{g}, {g}, {}])
  {
    var g, log := Group(LEFT, 0), ThreeRows();
    var d, e, cuts: seq<set<Group>> := Disk([], []), Disk(log, [First()]), [{g}, {g}, {}];
    FirstRunGathers();
    NoDefinitions(log, 3, "t");
    assert Skipped(d, log) == {};
    var chunk := ChunkOf(log, cuts, {}, g, 1);
    assert chunk == [1] && 1 in chunk;
    assert MadeFrom(First(), d, log, cuts, g, 1);
    assert New(d, log, cuts, First());
  }

  lemma SecondCrash()
    ensures var g := Group(LEFT, 0); Next(Disk(ThreeRows(), [First()]), Disk(ThreeRows(), [First(), Second()]),
            [{}, {}, {g}])
  {
    var g, log := Group(LEFT, 0), ThreeRows();
    var d, e, cuts: seq<set<Group>> := Disk(log, [First()]), Disk(log, [First(), Second()]), [{}, {}, {g}];
    SecondRunGathers();
    FirstClaims();
    NoDefinitions(log, 3, "t");
    var chunk := ChunkOf(log, cuts, {1}, g, 0);
    assert chunk == [0, 2] && 0 in chunk && 2 in chunk;
    assert MadeFrom(Second(), d, log, cuts, g, 0);
    assert New(d, log, cuts, Second());
    assert First() in d.batches && Same(First(), First());
    assert Old(d, First());
    forall a, h, i: nat | MadeFrom(a, d, log, cuts, h, i) ensures a.home != {1} {
      NewOk(d, e, cuts, a, h, i);
    }
  }

  lemma SecondEncloses()
    ensures var d := Disk(ThreeRows(), [First(), Second()]); KeysDisjoint(d) && !CleanIntervals(d)
  {
    var d := Disk(ThreeRows(), [First(), Second()]);
    FirstClaims();
    NoDefinitions(d.log, 1, "t");
    NoDefinitions(d.log, 3, "t");
    assert 0 in RedoRows(d.log, Second());
    assert First() in d.batches && Second() in d.batches && Recovered(d.log, Second());
  }

  lemma FirstRestartRight()
    ensures Good(Disk(ThreeRows(), [First()])) && Once(Disk(ThreeRows(), [First()]))
  {
    var g, d := Group(LEFT, 0), Disk(ThreeRows(), [First()]);
    FirstCrash();
    NextGood(Disk([], []), d, [{g}, {g}, {}]);
    OnceIffClean(d);
  }

  lemma SecondRestartWrong()
    ensures !Once(Disk(ThreeRows(), [First(), Second()]))
  {
    var g, d := Group(LEFT, 0), Disk(ThreeRows(), [First(), Second()]);
    FirstRestartRight();
    SecondCrash();
    NextGood(Disk(ThreeRows(), [First()]), d, [{}, {}, {g}]);
    SecondEncloses();
    OnceIffClean(d);
  }

  /** Two crashes from an empty log: the restart after the first is right, the restart after the second, although no
      client key is used and all rows have one key, brings a row twice. */
  lemma SecondRestartDoubles()
    ensures var g := Group(LEFT, 0);
            var c, d := Disk(ThreeRows(), [First()]), Disk(ThreeRows(), [First(), Second()]);
            && Next(Disk([], []), c, [{g}, {g}, {}]) && Next(c, d, [{}, {}, {g}])
            && Once(c) && !Once(d) && KeysDisjoint(d)
  {
    FirstCrash();
    SecondCrash();
    FirstRestartRight();
    SecondRestartWrong();
    SecondEncloses();
  }

  // ---- two groups alternate in the log, and one row has a client key

  function Alternating(): seq<Record> {
    [Rows(LEFT, ""), Rows(RIGHT, "c"), Rows(LEFT, "")]
  }

  function Around(pending: bool): Batch { Batch("a", LEFT, 0, 3, pending, false, {0, 2}) }

  function Inside(): Batch { Batch("b", RIGHT, 1, 2, false, false, {1}) }

  function Both(pending: bool): Disk { Disk(Alternating(), [Around(pending), Inside()]) }

  lemma AlternatingStarts()
    ensures var g, h := Group(LEFT, 0), Group(RIGHT, 0);
            Gather(Alternating(), [{}, {}, {g, h}], {}, 2) == Gathered(map[g := [[0]], h := [[1]]], {g, h})
  {
    var log, g, h := Alternating(), Group(LEFT, 0), Group(RIGHT, 0);
    var cuts: seq<set<Group>> := [{}, {}, {g, h}];
    OneRow(log, cuts, {}, 0);
    TakeRow(Gathered(map[], {}), g, 0);
    assert Gather(log, cuts, {}, 1) == Gathered(map[g := [[0]]], {g});
    OneRow(log, cuts, {}, 1);
    TakeRow(Gathered(map[g := [[0]]], {g}), h, 1);
    assert map[g := [[0]]][h := [[1]]] == map[g := [[0]], h := [[1]]] && {g} + {h} == {g, h};
  }

  lemma AlternatingGathers()
    ensures var g, h := Group(LEFT, 0), Group(RIGHT, 0);
            Gather(Alternating(), [{}, {}, {g, h}], {}, 3).chunks == map[g := [[0, 2]], h := [[1]]]
  {
    var log, g, h := Alternating(), Group(LEFT, 0), Group(RIGHT, 0);
    AlternatingStarts();
    OneRow(log, [{}, {}, {g, h}], {}, 2);
    TakeRow(Gathered(map[g := [[0]], h := [[1]]], {g, h}), g, 2);
    assert [0] + [2] == [0, 2];
  }

  lemma AlternatingCrash(pending: bool)
    ensures var g, h := Group(LEFT, 0), Group(RIGHT, 0); Next(Disk([], []), Both(pending), [{}, {}, {g, h}])
  {
    var log, g, h := Alternating(), Group(LEFT, 0), Group(RIGHT, 0);
    var d, cuts: seq<set<Group>> := Disk([], []), [{}, {}, {g, h}];
    AlternatingBatches(pending);
    assert New(d, log, cuts, Around(pending)) && New(d, log, cuts, Inside());
  }

  lemma AlternatingBatches(pending: bool)
    ensures var log, g, h := Alternating(), Group(LEFT, 0), Group(RIGHT, 0);
            var d, cuts: seq<set<Group>> := Disk([], []), [{}, {}, {g, h}];
            MadeFrom(Around(pending), d, log, cuts, g, 0) && MadeFrom(Inside(), d, log, cuts, h, 0)
  {
    var log, g, h := Alternating(), Group(LEFT, 0), Group(RIGHT, 0);
    var d, cuts: seq<set<Group>> := Disk([], []), [{}, {}, {g, h}];
    AlternatingGathers();
    NoDefinitions(log, 3, "t");
    assert Skipped(d, log) == {};
    var one, two := ChunkOf(log, cuts, {}, g, 0), ChunkOf(log, cuts, {}, h, 0);
    assert one == [0, 2] && 0 in one && 2 in one && two == [1] && 1 in two;
  }

  lemma AlternatingGood(pending: bool)
    ensures Good(Both(pending))
  {
    AlternatingCrash(pending);
    NextGood(Disk([], []), Both(pending), [{}, {}, {Group(LEFT, 0), Group(RIGHT, 0)}]);
  }

  /** Both intervals declare the client key, so the catalog takes the first batch and refuses the second. */
  lemma SecondRefused(pending: bool)
    ensures var d := Both(pending);
            && Recovered(d.log, d.batches[0]) && Recovered(d.log, d.batches[1])
            && Accepts(d.log, d.batches, 0) && !Accepts(d.log, d.batches, 1) && !KeysDisjoint(d)
  {
    var d := Both(pending);
    NoDefinitions(d.log, 1, "t");
    NoDefinitions(d.log, 2, "t");
    NoDefinitions(d.log, 3, "t");
    assert d.log[1].client == "c";
    assert 0 in RedoRows(d.log, Around(pending));
    assert "c" in KeysOf(d.log, Around(pending)) && "c" in KeysOf(d.log, Inside());
  }

  lemma NonePending()
    ensures CleanIntervals(Both(false)) && forall b | b in Both(false).batches :: !b.Redo()
  {
  }

  lemma SharedKeyWrong()
    ensures !Once(Both(false))
  {
    AlternatingGood(false);
    SecondRefused(false);
    NonePending();
    OnceIffKeysDisjoint(Both(false));
  }

  /** One crash from an empty log: no batch is pending, and the row with the client key is lost. */
  lemma SharedKeyLoses()
    ensures var d := Both(false);
            && Next(Disk([], []), d, [{}, {}, {Group(LEFT, 0), Group(RIGHT, 0)}])
            && !Once(d) && CleanIntervals(d) && forall b | b in d.batches :: !b.Redo()
  {
    AlternatingCrash(false);
    NonePending();
    SharedKeyWrong();
  }

  /** Both causes at once can make up for each other: the pending batch brings the very row that the refusal loses. */
  lemma CausesCancel()
    ensures var d := Both(true);
            && Next(Disk([], []), d, [{}, {}, {Group(LEFT, 0), Group(RIGHT, 0)}])
            && Once(d) && !CleanIntervals(d) && !KeysDisjoint(d)
  {
    AlternatingCrash(true);
    AlternatingGood(true);
    SecondRefused(true);
    StrayAndLost();
    ExactlyOnceIff(Both(true));
  }

  lemma StrayAndLost()
    ensures var d := Both(true);
            && !CleanIntervals(d)
            && forall q: nat | Present(d.log, q) :: |Strays(d, q)| == if Lost(d, q) then 1 else 0
  {
    var d := Both(true);
    SecondRefused(true);
    assert 1 in RedoRows(d.log, Around(true)) && d.log[1].key != LEFT && Around(true) in d.batches;
    forall q: nat | q < 3 ensures Strays(d, q) == (if q == 1 then {0} else {})
        && (Lost(d, q) <==> q == 1) { StraysOf(q); }
  }

  lemma StraysOf(q: nat)
    requires q < 3
    ensures var d := Both(true); Strays(d, q) == (if q == 1 then {0} else {}) && (Lost(d, q) <==> q == 1)
  {
    var d := Both(true);
    SecondRefused(true);
    assert FileRows(d.log, d.batches[0]) == {0, 1, 2} && d.batches[0].home == {0, 2} && d.batches[1].home == {1};
  }

  // ---- rows before and after a purge

  function Purging(): seq<Record> {
    [Rows(LEFT, ""), Purged("t", "p", 0), Rows(LEFT, "")]
  }

  function Before(): Batch { Batch("a", LEFT, 0, 1, false, false, {0}) }

  function Afterwards(): Batch { Batch("b", LEFT, 2, 3, false, false, {2}) }

  function Purgeable(): Disk { Disk(Purging(), [Before(), Afterwards()]) }

  lemma PurgingGathers()
    ensures var g := Group(LEFT, 0); Gather(Purging(), [{g}, {}, {g}], {}, 3).chunks == map[g := [[0], [2]]]
  {
    var log, g := Purging(), Group(LEFT, 0);
    var cuts: seq<set<Group>> := [{g}, {}, {g}];
    OneRow(log, cuts, {}, 0);
    TakeRow(Gathered(map[], {}), g, 0);
    assert ({} + {g}) - cuts[0] == {};
    assert Gather(log, cuts, {}, 1) == Gathered(map[g := [[0]]], {});
    OneRow(log, cuts, {}, 1);
    OneRow(log, cuts, {}, 2);
    TakeRow(Gathered(map[g := [[0]]], {}), g, 2);
    assert [[0]] + [[2]] == [[0], [2]];
  }

  lemma PurgingBatches()
    ensures var g := Group(LEFT, 0);
            MadeFrom(Before(), Disk([], []), Purging(), [{g}, {}, {g}], g, 0)
                && MadeFrom(Afterwards(), Disk([], []), Purging(), [{g}, {}, {g}], g, 1)
  {
    var log, g := Purging(), Group(LEFT, 0);
    var d, cuts: seq<set<Group>> := Disk([], []), [{g}, {}, {g}];
    PurgingGathers();
    NoDefinitions(log, 3, "t");
    assert Skipped(d, log) == {};
    var one, two := ChunkOf(log, cuts, {}, g, 0), ChunkOf(log, cuts, {}, g, 1);
    assert one == [0] && 0 in one && two == [2] && 2 in two;
  }

  lemma PurgingCrash()
    ensures var g := Group(LEFT, 0); Next(Disk([], []), Purgeable(), [{g}, {}, {g}])
  {
    var log, g := Purging(), Group(LEFT, 0);
    var d, cuts: seq<set<Group>> := Disk([], []), [{g}, {}, {g}];
    PurgingBatches();
    assert New(d, log, cuts, Before()) && New(d, log, cuts, Afterwards());
  }

  lemma BothAccepted()
    ensures var d := Purgeable(); Accepts(d.log, d.batches, 0) && Accepts(d.log, d.batches, 1)
  {
    var d := Purgeable();
    NoDefinitions(d.log, 1, "t");
    NoDefinitions(d.log, 3, "t");
  }

  lemma PurgeReplayed(now: nat)
    ensures var d := Purgeable();
            Served(d, now).1.None? && TakenBy(d.log, 1, "t") && !Followed(d.log, 2, "t")
  {
    var d := Purgeable();
    NoDefinitions(d.log, 2, "t");
    var s := Started(d, now);
    assert ReplayTo(s, d.log, 0, now) == (s, None);
    assert ReplayTo(s, d.log, 1, now) == (s, None);
    assert ReplayTo(s, d.log, 2, now).1 == None;
  }

  /** One crash from an empty log: the file written after the purge is gone after the restart, together with the one
      written before it. */
  lemma LaterRowsGone(now: nat)
    ensures var g, d := Group(LEFT, 0), Purgeable();
            && Next(Disk([], []), d, [{g}, {}, {g}])
            && Gone(d, now, 0) && Gone(d, now, 1) && 2 in FileRows(d.log, d.batches[1]) && !Followed(d.log, 2, "t")
  {
    var d := Purgeable();
    PurgingCrash();
    BothAccepted();
    PurgeReplayed(now);
    GoneIff(d, now, 0);
    GoneIff(d, now, 1);
  }
}

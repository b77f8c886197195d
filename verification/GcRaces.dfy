/** Exactly how a visible file can lose its object: the race of one collector with the writer of the batch. */
module GcRaces {
  import opened CatalogModel
  import opened CatalogOps
  import opened Evolution
  import opened OrphanGc

  /** The world before action `n`. */
  ghost function At(w: World, actions: seq<Action>, n: nat): World
    requires AllAllowed(w, actions) && n <= |actions|
    decreases n
  {
    if n == 0 then w else At(Do(w, actions[0]), actions[1..], n - 1)
  }

  lemma {:induction false} AtNext(w: World, actions: seq<Action>, n: nat)
    requires AllAllowed(w, actions) && n < |actions|
    ensures Allowed(At(w, actions, n), actions[n])
    ensures At(w, actions, n + 1) == Do(At(w, actions, n), actions[n])
    decreases n
  {
    if n > 0 {
      AtNext(Do(w, actions[0]), actions[1..], n - 1);
      assert actions[1..][n - 1] == actions[n];
    }
  }

  lemma {:induction false} AtEnd(w: World, actions: seq<Action>)
    requires AllAllowed(w, actions)
    ensures At(w, actions, |actions|) == DoAll(w, actions)
    decreases |actions|
  {
    if actions != [] { AtEnd(Do(w, actions[0]), actions[1..]); }
  }

  lemma {:induction false} AtSafe(w: World, actions: seq<Action>, n: nat)
    requires Fresh(w) && AllAllowed(w, actions) && n <= |actions|
    ensures Safe(At(w, actions, n))
    decreases n
  {
    if n > 0 {
      AtSafe(w, actions, n - 1);
      AtNext(w, actions, n - 1);
      DoSafe(At(w, actions, n - 1), actions[n - 1]);
    }
  }

  /** Where the knowledge of collector `c` before action `n` comes from. */
  ghost predicate Learned(w: World, actions: seq<Action>, n: nat, c: nat)
    requires AllAllowed(w, actions) && n <= |actions|
  {
    c < |At(w, actions, n).collectors| &&
    match At(w, actions, n).collectors[c]
    case Resting => true
    case Listed(listed) => exists l: nat :: l < n && actions[l] == List(c) && listed == At(w, actions, l).objects
    case Informed(listed, known) =>
      exists l: nat, m: nat :: l < m < n && actions[l] == List(c) && actions[m] == Inform(c)
        && listed == At(w, actions, l).objects && known == KnownBatchIds(At(w, actions, m).state)
  }

  lemma SameCollectors(w: World, a: Action, c: nat)
    requires Allowed(w, a) && c < |w.collectors| && !(a.List? && a.collector == c) && !(a.Inform? && a.collector == c)
    ensures |Do(w, a).collectors| == |w.collectors| && Do(w, a).collectors[c] == w.collectors[c]
  {
  }

  lemma {:induction false} HowLearned(w: World, actions: seq<Action>, n: nat, c: nat)
    requires Fresh(w) && AllAllowed(w, actions) && n <= |actions| && c < |w.collectors|
    ensures Learned(w, actions, n, c)
    decreases n
  {
    if n > 0 {
      HowLearned(w, actions, n - 1, c);
      AtNext(w, actions, n - 1);
      var a, before := actions[n - 1], At(w, actions, n - 1);
      if a == List(c) {
        assert At(w, actions, n).collectors[c] == Listed(before.objects);
      } else if a == Inform(c) {
        var l: nat :| l < n - 1 && actions[l] == List(c) && before.collectors[c].listed == At(w, actions, l).objects;
        assert At(w, actions, n).collectors[c] == Informed(before.collectors[c].listed, KnownBatchIds(before.state));
      } else {
        SameCollectors(before, a, c);
      }
    }
  }

  /** A collector listed the object, then did not find the batch among the known ones, then deleted the object. */
  ghost predicate Raced(w: World, actions: seq<Action>, b: string, c: nat, l: nat, m: nat, d: nat)
    requires AllAllowed(w, actions)
  {
    && l < m < d < |actions| && actions[l] == List(c) && actions[m] == Inform(c) && actions[d] == Delete(c, b)
    && b in At(w, actions, l).objects && b !in KnownBatchIds(At(w, actions, m).state)
  }

  /** An object that is gone is never put again. */
  lemma {:induction false} StaysGone(w: World, actions: seq<Action>, n: nat, k: nat, b: string)
    requires Fresh(w) && AllAllowed(w, actions) && n <= k <= |actions|
    requires b in At(w, actions, n).uploaded && b !in At(w, actions, n).objects
    ensures b in At(w, actions, k).uploaded && b !in At(w, actions, k).objects
    decreases k
  {
    if n < k {
      StaysGone(w, actions, n, k - 1, b);
      AtSafe(w, actions, k - 1);
      AtNext(w, actions, k - 1);
    }
  }

  /** An object that was put and is not there was deleted. */
  lemma {:induction false} WasDeleted(w: World, actions: seq<Action>, n: nat, b: string) returns (d: nat, c: nat)
    requires Fresh(w) && AllAllowed(w, actions) && n <= |actions|
    requires b in At(w, actions, n).uploaded && b !in At(w, actions, n).objects
    ensures d < n && actions[d] == Delete(c, b)
    decreases n
  {
    AtNext(w, actions, n - 1);
    var before := At(w, actions, n - 1);
    if b in before.uploaded && b !in before.objects {
      d, c := WasDeleted(w, actions, n - 1, b);
    } else {
      d, c := n - 1, actions[n - 1].collector;
    }
  }

  lemma {:induction false} SameNumber(w: World, actions: seq<Action>, n: nat)
    requires AllAllowed(w, actions) && n <= |actions|
    ensures |At(w, actions, n).collectors| == |w.collectors|
    decreases n
  {
    if n > 0 {
      SameNumber(w, actions, n - 1);
      AtNext(w, actions, n - 1);
    }
  }

  lemma DeletedWasRaced(w: World, actions: seq<Action>, d: nat, c: nat, b: string) returns (l: nat, m: nat)
    requires Fresh(w) && AllAllowed(w, actions) && d < |actions| && actions[d] == Delete(c, b)
    ensures Raced(w, actions, b, c, l, m, d)
  {
    AtNext(w, actions, d);
    SameNumber(w, actions, d);
    HowLearned(w, actions, d, c);
    var k := At(w, actions, d).collectors[c];
    l, m :| l < m < d && actions[l] == List(c) && actions[m] == Inform(c)
        && k.listed == At(w, actions, l).objects && k.known == KnownBatchIds(At(w, actions, m).state);
  }

  lemma DeletedIsGone(w: World, actions: seq<Action>, c: nat, d: nat, b: string)
    requires Fresh(w) && AllAllowed(w, actions) && d < |actions| && actions[d] == Delete(c, b)
    ensures b in At(w, actions, d + 1).uploaded && b !in At(w, actions, d + 1).objects
  {
    AtSafe(w, actions, d);
    AtNext(w, actions, d);
    assert Remembers(At(w, actions, d), At(w, actions, d).collectors[c]);
  }

  lemma RacedIsGone(w: World, actions: seq<Action>, b: string, c: nat, l: nat, m: nat, d: nat)
    requires Fresh(w) && AllAllowed(w, actions) && Raced(w, actions, b, c, l, m, d)
    ensures b !in DoAll(w, actions).objects
  {
    DeletedIsGone(w, actions, c, d, b);
    StaysGone(w, actions, d + 1, |actions|, b);
    AtEnd(w, actions);
  }

  /** In any run at all, a file visible now has lost its object if and only if a collector listed the object, asked at a
      moment when the batch was neither in flight nor in a file, and then deleted it. */
  lemma LostIff(w: World, actions: seq<Action>, table: string, b: string)
    requires Fresh(w) && AllAllowed(w, actions)
    requires var d := DoAll(w, actions).state.data; b in VisibleFiles(d, table, d.snapshot)
    ensures b !in DoAll(w, actions).objects
            <==> exists c: nat, l: nat, m: nat, d: nat :: Raced(w, actions, b, c, l, m, d)
  {
    RunSafe(w, actions);
    AtEnd(w, actions);
    assert Protected(DoAll(w, actions).state.data, b);
    if b !in DoAll(w, actions).objects {
      var d, c := WasDeleted(w, actions, |actions|, b);
      var l, m := DeletedWasRaced(w, actions, d, c, b);
    }
    if c: nat, l: nat, m: nat, d: nat :| Raced(w, actions, b, c, l, m, d) { RacedIsGone(w, actions, b, c, l, m, d); }
  }

  // ---------------------------------------------------------------- two such runs

  function Empty(): World {
    World(Initial(), {}, {}, {}, {}, {}, [Resting])
  }

  lemma StepFirst(w: World, a: Action, rest: seq<Action>)
    requires Allowed(w, a) && AllAllowed(Do(w, a), rest)
    ensures AllAllowed(w, [a] + rest) && DoAll(w, [a] + rest) == DoAll(Do(w, a), rest)
  {
    assert ([a] + rest)[1..] == rest;
  }

  /** List, ask, delete, commit: from a world in which the object is there and the batch is unknown. */
  lemma Collected(w: World, b: string, op: Op)
    requires w.collectors == [Resting] && b in w.objects && b !in KnownBatchIds(w.state)
    requires IsCommit(op) && Committed(op) <= w.uploaded && Overwritten(w.state.data.files, op) == {}
    ensures AllAllowed(w, [List(0), Inform(0), Delete(0, b), Commit(op)])
    ensures var x := DoAll(w, [List(0), Inform(0), Delete(0, b), Commit(op)]);
            x.state == Step(w.state, op) && b !in x.objects
  {
    var w1 := Do(w, List(0));
    var w2 := Do(w1, Inform(0));
    assert w2.collectors[0] == Informed(w.objects, KnownBatchIds(w.state));
    var w3 := Do(w2, Delete(0, b));
    StepFirst(w3, Commit(op), []);
    StepFirst(w2, Delete(0, b), [Commit(op)] + []);
    StepFirst(w1, Inform(0), [Delete(0, b)] + ([Commit(op)] + []));
    StepFirst(w, List(0), [Inform(0)] + ([Delete(0, b)] + ([Commit(op)] + [])));
    assert [List(0), Inform(0), Delete(0, b), Commit(op)] == [List(0)]
           + ([Inform(0)] + ([Delete(0, b)] + ([Commit(op)] + [])));
  }

  function Racing(b: string, op: Op): seq<Action> { [List(0), Inform(0), Delete(0, b), Commit(op)] }

  const NEW := File("o", "b", "t", "s", "w", 1, 1, 0, "", 0, 0)

  /** An UPDATE puts the object of its new rows without announcing it; a collector that comes in between deletes it, and
      the UPDATE is applied all the same. */
  lemma UpdateLosesObject()
    ensures var actions := [UploadUnannounced("b")] + Racing("b", OpApplyUpdate([], [NEW], "u", 0));
            AllAllowed(Empty(), actions) &&
            var x := DoAll(Empty(), actions);
            "b" in VisibleFiles(x.state.data, "t", x.state.data.snapshot) && "b" !in x.objects
  {
    var op := OpApplyUpdate([], [NEW], "u", 0);
    var w := Do(Empty(), UploadUnannounced("b"));
    Collected(w, "b", op);
    StepFirst(Empty(), UploadUnannounced("b"), Racing("b", op));
    OneNewFile();
  }

  lemma OneNewFile()
    ensures var d := Step(Initial(), OpApplyUpdate([], [NEW], "u", 0)).data;
            "b" in VisibleFiles(d, "t", d.snapshot)
  {
    assert [NEW][1..] == [];
    assert FreshFiles(map[], [NEW]) == [NEW];
    assert AddFiles(map[], [NEW], 2) == map["b" := NEW.(validFrom := 2)];
  }

  function CommitOf(): CommitRequest { CommitRequest("t", "b", None, [], "s", "w", [NEW], 0) }

  /** A flush that announced its batch, but is so slow that the entry expires before its commit. */
  lemma ExpiryLosesObject()
    ensures var actions := [Announce("b", 0), Upload("b"), Other(OpSweepInFlight(10, 10))]
            + Racing("b", OpCommitFiles(CommitOf(), 0));
            AllAllowed(Empty(), actions) &&
            var x := DoAll(Empty(), actions);
            "b" in VisibleFiles(x.state.data, "t", x.state.data.snapshot) && "b" !in x.objects
  {
    var op, sweep := OpCommitFiles(CommitOf(), 0), OpSweepInFlight(10, 10);
    var w1 := Do(Empty(), Announce("b", 0));
    var w2 := Do(w1, Upload("b"));
    var w3 := Do(w2, Other(sweep));
    assert w3.state.inFlight == map[];
    Collected(w3, "b", op);
    StepFirst(w2, Other(sweep), Racing("b", op));
    StepFirst(w1, Upload("b"), [Other(sweep)] + Racing("b", op));
    StepFirst(Empty(), Announce("b", 0), [Upload("b")] + ([Other(sweep)] + Racing("b", op)));
    assert [Announce("b", 0), Upload("b"), Other(sweep)] + Racing("b", op)
        == [Announce("b", 0)] + ([Upload("b")] + ([Other(sweep)] + Racing("b", op)));
  }
}

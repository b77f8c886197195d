/** Several statements take sets of leases at the same time, one key per step, in ascending key order.
    Whatever the interleaving, not all of them fail, and one that fails leaves nothing behind. */
module LeaseSets {
  import opened CatalogModel
  import opened CatalogOps
  import opened Strings

  datatype Phase =
    | Acquiring
    | RollingBack(refused: string)   // giving back what it took, after this key was refused
    | Failed(refused: string)
    | Holding                        // has every key
    | Releasing
    | Finished

  /** `epochs` are those of the first keys, which the acquirer currently holds. */
  datatype Acquirer = Acquirer(keys: seq<string>, holder: string, now: nat, ttl: nat, epochs: seq<nat>, phase: Phase)
  {
    predicate Lost() { phase.RollingBack? || phase.Failed? }

    predicate Won() { phase.Holding? || phase.Releasing? || phase.Finished? }

    predicate Took(key: string) { key in keys[..Taken()] }

    function Taken(): nat { if |epochs| <= |keys| then |epochs| else |keys| }
  }

  datatype World = World(leases: map<string, Lease>, actors: seq<Acquirer>)

  // ---- the steps

  function Try(w: World, i: nat): World
    requires i < |w.actors| && w.actors[i].phase.Acquiring?
  {
    var a := w.actors[i];
    if |a.epochs| >= |a.keys| then w.(actors := w.actors[i := a.(phase := Holding)])
    else
      var key := a.keys[|a.epochs|];
      var (leases, grant) := AcquireLease(w.leases, key, a.holder, a.now, a.ttl);
      World(leases, w.actors[i := if grant.granted then a.(epochs := a.epochs + [grant.epoch])
                                  else a.(phase := RollingBack(key))])
  }

  /** Gives back the last key taken, or ends. */
  function GiveBack(w: World, i: nat): World
    requires i < |w.actors| && (w.actors[i].phase.RollingBack? || w.actors[i].phase.Releasing?)
  {
    var a := w.actors[i];
    var n := a.Taken();
    if n == 0 then
      w.(actors := w.actors[i := a.(phase := if a.phase.RollingBack? then Failed(a.phase.refused) else Finished)])
    else
      World(ReleaseLease(w.leases, a.keys[n - 1], a.holder, a.epochs[n - 1]).0,
            w.actors[i := a.(epochs := a.epochs[..n - 1])])
  }

  function Act(w: World, i: nat): World {
    if i >= |w.actors| then w
    else match w.actors[i].phase
      case Acquiring => Try(w, i)
      case RollingBack(_) => GiveBack(w, i)
      case Holding => w.(actors := w.actors[i := w.actors[i].(phase := Releasing)])
      case Releasing => GiveBack(w, i)
      case _ => w
  }

  /** A run: who acts next, at each step. */
  function Interleave(w: World, schedule: seq<nat>): World
    decreases |schedule|
  {
    if schedule == [] then w else Interleave(Act(w, schedule[0]), schedule[1..])
  }

  // ---- the premises

  ghost predicate Fair(actors: seq<Acquirer>) {
    && (forall i | 0 <= i < |actors| :: actors[i].holder != "" && Ascending(actors[i].keys))
    && (forall i, j | 0 <= i < j < |actors| :: actors[i].holder != actors[j].holder)
    // no lease expires while anybody asks
    && (forall i, j | 0 <= i < |actors| && 0 <= j < |actors| :: actors[i].now < SatAdd(actors[j].now, actors[j].ttl))
  }

  ghost predicate Idle(leases: map<string, Lease>, key: string) {
    key in leases ==> leases[key].holder == "" && leases[key].expiresAt == 0
  }

  ghost predicate Start(w: World) {
    && Fair(w.actors)
    && (forall i | 0 <= i < |w.actors| :: w.actors[i].epochs == [] && w.actors[i].phase == Acquiring)
    && (forall i, key | 0 <= i < |w.actors| && key in w.actors[i].keys :: Idle(w.leases, key))
  }

  // ---- who holds what

  ghost predicate HoldsAt(leases: map<string, Lease>, a: Acquirer, k: nat)
    requires k < |a.keys| && k < |a.epochs|
  {
    a.keys[k] in leases && leases[a.keys[k]].holder == a.holder && leases[a.keys[k]].epoch == a.epochs[k]
    && leases[a.keys[k]].expiresAt == SatAdd(a.now, a.ttl)
  }

  ghost predicate HoldsTaken(leases: map<string, Lease>, a: Acquirer) {
    |a.epochs| <= |a.keys| && forall k | 0 <= k < |a.epochs| :: HoldsAt(leases, a, k)
  }

  /** A lease is free or was taken by the acquirer it names. */
  ghost predicate Accounted(leases: map<string, Lease>, actors: seq<Acquirer>, key: string) {
    Idle(leases, key) || exists i :: 0 <= i < |actors| && actors[i].holder == leases[key].holder && actors[i].Took(key)
  }

  ghost predicate Bookkept(w: World) {
    && Fair(w.actors)
    && (forall i | 0 <= i < |w.actors| :: HoldsTaken(w.leases, w.actors[i]))
    && (forall i, key | 0 <= i < |w.actors| && key in w.actors[i].keys :: Accounted(w.leases, w.actors, key))
  }

  lemma KeyIndex(a: Acquirer, i: nat, j: nat)
    requires Ascending(a.keys) && i < |a.keys| && j < |a.keys| && a.keys[i] == a.keys[j]
    ensures i == j
  {
    Irreflexive(a.keys[i]);
  }

  lemma SameFields(w: World, x: World, i: nat, a: Acquirer)
    requires Fair(w.actors) && i < |w.actors| && x.actors == w.actors[i := a]
    requires a.keys == w.actors[i].keys && a.holder == w.actors[i].holder && a.now == w.actors[i].now
             && a.ttl == w.actors[i].ttl
    ensures Fair(x.actors)
  {
  }

  /** Changing one lease that only `i` may hold leaves the other acquirers' books right. */
  lemma OthersKept(w: World, leases: map<string, Lease>, i: nat, key: string, j: nat)
    requires Bookkept(w) && i < |w.actors| && j < |w.actors| && j != i
    requires forall p | p != key :: (p in leases <==> p in w.leases) && (p in leases ==> leases[p] == w.leases[p])
    requires key in w.leases ==> w.leases[key].holder == w.actors[i].holder || Idle(w.leases, key)
    ensures HoldsTaken(leases, w.actors[j])
  {
    var b := w.actors[j];
    forall k | 0 <= k < |b.epochs| ensures HoldsAt(leases, b, k) {
      assert HoldsAt(w.leases, b, k);
    }
  }

  lemma AccountedKept(w: World, leases: map<string, Lease>, actors: seq<Acquirer>, i: nat, key: string, p: string)
    requires i < |w.actors| && |actors| == |w.actors| && Accounted(w.leases, w.actors, p) && p != key
    requires p in leases <==> p in w.leases
    requires p in leases ==> leases[p] == w.leases[p]
    requires forall j | 0 <= j < |actors| ::
               actors[j].holder == w.actors[j].holder && (w.actors[j].Took(p) ==> actors[j].Took(p))
    ensures Accounted(leases, actors, p)
  {
    if !Idle(w.leases, p) {
      var j :| 0 <= j < |w.actors| && w.actors[j].holder == w.leases[p].holder && w.actors[j].Took(p);
      assert actors[j].Took(p);
    }
  }

  /** Nobody waits and nothing expires: a key is granted exactly when nobody has it. */
  lemma GrantedIffIdle(w: World, i: nat)
    requires Bookkept(w) && i < |w.actors| && |w.actors[i].epochs| < |w.actors[i].keys|
    ensures var a := w.actors[i];
            var key := a.keys[|a.epochs|];
            AcquireLease(w.leases, key, a.holder, a.now, a.ttl).1.granted <==> Idle(w.leases, key)
  {
    var a := w.actors[i];
    var key := a.keys[|a.epochs|];
    assert Accounted(w.leases, w.actors, key);
    if !Idle(w.leases, key) {
      var j, k := Owner(w, key);
      if j == i { KeyIndex(a, k, |a.epochs|); }
    }
  }

  /** The acquirer that holds a key that is not idle. */
  lemma Owner(w: World, key: string) returns (j: nat, k: nat)
    requires Bookkept(w) && Accounted(w.leases, w.actors, key) && !Idle(w.leases, key)
    ensures j < |w.actors| && k < |w.actors[j].epochs| && k < |w.actors[j].keys| && w.actors[j].keys[k] == key
    ensures HoldsAt(w.leases, w.actors[j], k)
  {
    j :| 0 <= j < |w.actors| && w.actors[j].holder == w.leases[key].holder && w.actors[j].Took(key);
    k :| 0 <= k < w.actors[j].Taken() && w.actors[j].keys[k] == key;
    assert HoldsTaken(w.leases, w.actors[j]);
  }

  lemma TakingKeeps(w: World, i: nat)
    requires Bookkept(w) && i < |w.actors| && w.actors[i].phase.Acquiring? && |w.actors[i].epochs| < |w.actors[i].keys|
    requires Idle(w.leases, w.actors[i].keys[|w.actors[i].epochs|])
    ensures Bookkept(Try(w, i))
  {
    var a := w.actors[i];
    var h := |a.epochs|;
    var key := a.keys[h];
    GrantedIffIdle(w, i);
    var x := Try(w, i);
    var b := x.actors[i];
    assert b == a.(epochs := a.epochs + [x.leases[key].epoch]);
    SameFields(w, x, i, b);
    forall k | 0 <= k <= h ensures HoldsAt(x.leases, b, k) {
      if k < h { assert HoldsAt(w.leases, a, k); }
    }
    forall j | 0 <= j < |w.actors| && j != i ensures HoldsTaken(x.leases, x.actors[j]) {
      OthersKept(w, x.leases, i, key, j);
    }
    assert b.keys[..h + 1] == a.keys[..h] + [key];
    forall j, p | 0 <= j < |x.actors| && p in x.actors[j].keys ensures Accounted(x.leases, x.actors, p) {
      assert p in w.actors[j].keys;
      if p != key {
        AccountedKept(w, x.leases, x.actors, i, key, p);
      } else {
        assert b.Took(key);
      }
    }
  }

  lemma GivingBackKeeps(w: World, i: nat)
    requires Bookkept(w) && i < |w.actors| && w.actors[i].epochs != []
    requires w.actors[i].phase.RollingBack? || w.actors[i].phase.Releasing?
    ensures Bookkept(GiveBack(w, i))
  {
    var a := w.actors[i];
    var n := a.Taken();
    var key := a.keys[n - 1];
    var x := GiveBack(w, i);
    assert HoldsTaken(w.leases, a) && HoldsAt(w.leases, a, n - 1);
    var b := a.(epochs := a.epochs[..n - 1]);
    assert x.actors == w.actors[i := b];
    SameFields(w, x, i, b);
    forall k | 0 <= k < n - 1 ensures HoldsAt(x.leases, b, k) {
      assert HoldsAt(w.leases, a, k);
      if a.keys[k] == key { KeyIndex(a, k, n - 1); }
    }
    forall j | 0 <= j < |w.actors| && j != i ensures HoldsTaken(x.leases, x.actors[j]) {
      OthersKept(w, x.leases, i, key, j);
    }
    assert a.keys[..n] == a.keys[..n - 1] + [key];
    forall j, p | 0 <= j < |x.actors| && p in x.actors[j].keys ensures Accounted(x.leases, x.actors, p) {
      assert p in w.actors[j].keys;
      if p != key { AccountedKept(w, x.leases, x.actors, i, key, p); }
    }
  }

  /** A step that changes nothing but the phase of one acquirer. */
  lemma PhaseKeeps(w: World, i: nat, phase: Phase)
    requires Bookkept(w) && i < |w.actors|
    ensures Bookkept(w.(actors := w.actors[i := w.actors[i].(phase := phase)]))
  {
    var x := w.(actors := w.actors[i := w.actors[i].(phase := phase)]);
    SameFields(w, x, i, x.actors[i]);
    forall j | 0 <= j < |x.actors| ensures HoldsTaken(x.leases, x.actors[j]) {
      assert HoldsTaken(w.leases, w.actors[j]);
      forall k | 0 <= k < |x.actors[j].epochs| ensures HoldsAt(x.leases, x.actors[j], k) {
        assert HoldsAt(w.leases, w.actors[j], k);
      }
    }
    forall j, p | 0 <= j < |x.actors| && p in x.actors[j].keys ensures Accounted(x.leases, x.actors, p) {
      assert p in w.actors[j].keys && Accounted(w.leases, w.actors, p);
      if !Idle(w.leases, p) {
        var o :| 0 <= o < |w.actors| && w.actors[o].holder == w.leases[p].holder && w.actors[o].Took(p);
        assert x.actors[o].Took(p);
      }
    }
  }

  lemma RefusedStep(w: World, i: nat)
    requires Bookkept(w) && i < |w.actors| && w.actors[i].phase.Acquiring? && |w.actors[i].epochs| < |w.actors[i].keys|
    requires !Idle(w.leases, w.actors[i].keys[|w.actors[i].epochs|])
    ensures Try(w, i) ==
            w.(actors := w.actors[i := w.actors[i].(phase := RollingBack(w.actors[i].keys[|w.actors[i].epochs|]))])
  {
    GrantedIffIdle(w, i);
  }

  lemma ActKeeps(w: World, i: nat)
    requires Bookkept(w)
    ensures Bookkept(Act(w, i))
  {
    if i < |w.actors| {
      var a := w.actors[i];
      match a.phase {
        case Acquiring =>
          if |a.epochs| >= |a.keys| {
            PhaseKeeps(w, i, Holding);
          } else if Idle(w.leases, a.keys[|a.epochs|]) {
            TakingKeeps(w, i);
          } else {
            RefusedStep(w, i);
            PhaseKeeps(w, i, RollingBack(a.keys[|a.epochs|]));
          }
        case RollingBack(r) => if a.epochs == [] { PhaseKeeps(w, i, Failed(r)); } else { GivingBackKeeps(w, i); }
        case Holding => PhaseKeeps(w, i, Releasing);
        case Releasing => if a.epochs == [] { PhaseKeeps(w, i, Finished); } else { GivingBackKeeps(w, i); }
        case _ =>
      }
    }
  }

  // ---- somebody gets through

  /** Has taken a key that is `key` or comes after it. */
  ghost predicate Reaches(a: Acquirer, key: string) {
    exists k :: 0 <= k < a.Taken() && (a.keys[k] == key || Less(key, a.keys[k]))
  }

  ghost predicate TookBelow(a: Acquirer, key: string) {
    forall k | 0 <= k < a.Taken() :: Less(a.keys[k], key)
  }

  function Refused(a: Acquirer): string
    requires a.Lost()
  {
    a.phase.refused
  }

  ghost predicate SomeoneWon(w: World) {
    exists j :: 0 <= j < |w.actors| && w.actors[j].Won()
  }

  /** Someone still on the way up has got at least as far as `key`. */
  ghost predicate Overtaken(w: World, key: string) {
    exists j :: 0 <= j < |w.actors| && w.actors[j].phase.Acquiring? && Reaches(w.actors[j], key)
  }

  ghost predicate Hopeful(w: World) {
    && (forall i | 0 <= i < |w.actors| && w.actors[i].Lost() :: TookBelow(w.actors[i], Refused(w.actors[i])))
    && (forall i | 0 <= i < |w.actors| && w.actors[i].phase.Failed? :: w.actors[i].epochs == [])
    && (SomeoneWon(w) || forall i | 0 <= i < |w.actors| && w.actors[i].Lost() :: Overtaken(w, Refused(w.actors[i])))
  }

  lemma ReachesOn(a: Acquirer, low: string, high: string)
    requires Reaches(a, high) && (low == high || Less(low, high))
    ensures Reaches(a, low)
  {
    var k :| 0 <= k < a.Taken() && (a.keys[k] == high || Less(high, a.keys[k]));
    if low != high && a.keys[k] != high { Transitive(low, high, a.keys[k]); }
  }

  lemma AllBelowNext(a: Acquirer)
    requires Ascending(a.keys) && |a.epochs| < |a.keys|
    ensures TookBelow(a, a.keys[|a.epochs|])
  {
  }

  /** An acquirer that is refused a key has not reached it, so whoever has it is another one. */
  lemma BelowNeverReaches(a: Acquirer, key: string, wanted: string)
    requires TookBelow(a, key) && (wanted == key || Less(key, wanted))
    ensures !Reaches(a, wanted)
  {
    forall k | 0 <= k < a.Taken() ensures a.keys[k] != wanted && !Less(wanted, a.keys[k]) {
      Irreflexive(key);
      Irreflexive(wanted);
      if wanted != key { Transitive(a.keys[k], key, wanted); }
      if Less(wanted, a.keys[k]) {
        Transitive(wanted, a.keys[k], wanted);
      }
    }
  }

  /** When a key is refused, its owner or whoever overtook the owner is still on the way up. */
  lemma RefusedIsOvertaken(w: World, i: nat)
    requires Bookkept(w) && Hopeful(w) && !SomeoneWon(w)
    requires i < |w.actors| && w.actors[i].phase.Acquiring? && |w.actors[i].epochs| < |w.actors[i].keys|
    requires !Idle(w.leases, w.actors[i].keys[|w.actors[i].epochs|])
    ensures exists j :: 0 <= j < |w.actors| && j != i && w.actors[j].phase.Acquiring?
                        && Reaches(w.actors[j], w.actors[i].keys[|w.actors[i].epochs|])
  {
    var a := w.actors[i];
    var key := a.keys[|a.epochs|];
    AllBelowNext(a);
    var o, k := Owner(w, key);
    assert Reaches(w.actors[o], key);
    BelowNeverReaches(a, key, key);
    if w.actors[o].Lost() {
      var refused := Refused(w.actors[o]);
      assert Less(key, refused);
      var j :| 0 <= j < |w.actors| && w.actors[j].phase.Acquiring? && Reaches(w.actors[j], refused);
      BelowNeverReaches(a, key, refused);
      ReachesOn(w.actors[j], key, refused);
    } else {
      assert !w.actors[o].Won();
    }
  }

  lemma RefusalKeepsHope(w: World, i: nat)
    requires Bookkept(w) && Hopeful(w)
    requires i < |w.actors| && w.actors[i].phase.Acquiring? && |w.actors[i].epochs| < |w.actors[i].keys|
    requires !Idle(w.leases, w.actors[i].keys[|w.actors[i].epochs|])
    ensures Hopeful(Try(w, i))
  {
    var a := w.actors[i];
    var key := a.keys[|a.epochs|];
    var x := Try(w, i);
    RefusedStep(w, i);
    AllBelowNext(a);
    if SomeoneWon(w) {
      var j :| 0 <= j < |w.actors| && w.actors[j].Won();
      assert x.actors[j].Won();
    } else {
      RefusedIsOvertaken(w, i);
      var j :| 0 <= j < |w.actors| && j != i && w.actors[j].phase.Acquiring? && Reaches(w.actors[j], key);
      assert x.actors[j] == w.actors[j];
      forall f | 0 <= f < |x.actors| && x.actors[f].Lost() ensures Overtaken(x, Refused(x.actors[f])) {
        if f != i {
          var g :| 0 <= g < |w.actors| && w.actors[g].phase.Acquiring? && Reaches(w.actors[g], Refused(w.actors[f]));
          if g == i { ReachedStaysBelow(w, i, j, Refused(w.actors[f])); }
          assert x.actors[if g == i then j else g] == w.actors[if g == i then j else g];
        }
      }
    }
  }

  /** What `i` had reached, an acquirer that reached the next key of `i` has reached too. */
  lemma ReachedStaysBelow(w: World, i: nat, j: nat, refused: string)
    requires i < |w.actors| && j < |w.actors| && |w.actors[i].epochs| < |w.actors[i].keys|
             && Ascending(w.actors[i].keys)
    requires Reaches(w.actors[i], refused) && Reaches(w.actors[j], w.actors[i].keys[|w.actors[i].epochs|])
    ensures Reaches(w.actors[j], refused)
  {
    var a := w.actors[i];
    var key := a.keys[|a.epochs|];
    var k :| 0 <= k < a.Taken() && (a.keys[k] == refused || Less(refused, a.keys[k]));
    assert Less(a.keys[k], key);
    if a.keys[k] != refused { Transitive(refused, a.keys[k], key); }
    ReachesOn(w.actors[j], refused, key);
  }

  /** A step of `i` after which `i` has won, or has lost no ground and no new loss was added. */
  lemma OtherStepsKeepHope(w: World, x: World, i: nat)
    requires Hopeful(w) && i < |w.actors| && |x.actors| == |w.actors|
    requires forall j | 0 <= j < |w.actors| && j != i :: x.actors[j] == w.actors[j]
    requires x.actors[i].Won() || (x.actors[i].phase.Acquiring? && w.actors[i].phase.Acquiring?)
             || (x.actors[i].Lost() && w.actors[i].Lost() && Refused(x.actors[i]) == Refused(w.actors[i]))
    requires w.actors[i].Won() ==> x.actors[i].Won()
    requires x.actors[i].Lost() ==> TookBelow(x.actors[i], Refused(x.actors[i]))
    requires x.actors[i].phase.Failed? ==> x.actors[i].epochs == []
    requires x.actors[i].phase.Acquiring? ==> forall key :: Reaches(w.actors[i], key) ==> Reaches(x.actors[i], key)
    ensures Hopeful(x)
  {
    if SomeoneWon(w) {
      var j :| 0 <= j < |w.actors| && w.actors[j].Won();
      assert x.actors[j].Won();
    } else if !SomeoneWon(x) {
      forall f | 0 <= f < |x.actors| && x.actors[f].Lost() ensures Overtaken(x, Refused(x.actors[f])) {
        assert w.actors[f].Lost() && Overtaken(w, Refused(w.actors[f]));
        var g :| 0 <= g < |w.actors| && w.actors[g].phase.Acquiring? && Reaches(w.actors[g], Refused(w.actors[f]));
        assert x.actors[g].phase.Acquiring? && Reaches(x.actors[g], Refused(x.actors[f]));
      }
    }
  }

  lemma TakingReaches(a: Acquirer, b: Acquirer, epoch: nat)
    requires |a.epochs| < |a.keys| && b == a.(epochs := a.epochs + [epoch])
    ensures forall key :: Reaches(a, key) ==> Reaches(b, key)
  {
    forall key | Reaches(a, key) ensures Reaches(b, key) {
      var k :| 0 <= k < a.Taken() && (a.keys[k] == key || Less(key, a.keys[k]));
      assert k < b.Taken();
    }
  }

  lemma ActKeepsHope(w: World, i: nat)
    requires Bookkept(w) && Hopeful(w)
    ensures Hopeful(Act(w, i))
  {
    if i < |w.actors| {
      var a := w.actors[i];
      var x := Act(w, i);
      match a.phase {
        case Acquiring =>
          if |a.epochs| >= |a.keys| {
            OtherStepsKeepHope(w, x, i);
          } else if Idle(w.leases, a.keys[|a.epochs|]) {
            GrantedIffIdle(w, i);
            TakingReaches(a, x.actors[i], x.leases[a.keys[|a.epochs|]].epoch);
            OtherStepsKeepHope(w, x, i);
          } else {
            RefusalKeepsHope(w, i);
          }
        case RollingBack(r) =>
          assert TookBelow(a, r);
          OtherStepsKeepHope(w, x, i);
        case Holding => OtherStepsKeepHope(w, x, i);
        case Releasing => OtherStepsKeepHope(w, x, i);
        case _ =>
      }
    }
  }

  lemma StartIsHopeful(w: World)
    requires Start(w)
    ensures Bookkept(w) && Hopeful(w)
  {
    forall i | 0 <= i < |w.actors| ensures HoldsTaken(w.leases, w.actors[i]) && !w.actors[i].Lost() {
      assert w.actors[i].epochs == [];
    }
  }

  lemma {:induction false} RunIsHopeful(w: World, schedule: seq<nat>)
    requires Bookkept(w) && Hopeful(w)
    ensures Bookkept(Interleave(w, schedule)) && Hopeful(Interleave(w, schedule))
    ensures |Interleave(w, schedule).actors| == |w.actors|
    decreases |schedule|
  {
    if schedule != [] {
      ActKeeps(w, schedule[0]);
      ActKeepsHope(w, schedule[0]);
      RunIsHopeful(Act(w, schedule[0]), schedule[1..]);
    }
  }

  // ---- the theorems

  lemma NotAllFail(w: World, schedule: seq<nat>)
    requires Start(w) && w.actors != []
    ensures exists i :: 0 <= i < |Interleave(w, schedule).actors| && !Interleave(w, schedule).actors[i].Lost()
  {
    StartIsHopeful(w);
    RunIsHopeful(w, schedule);
    var x := Interleave(w, schedule);
    if x.actors[0].Lost() {
      assert SomeoneWon(x) || Overtaken(x, Refused(x.actors[0]));
    }
  }

  lemma FailedHoldsNothing(w: World, schedule: seq<nat>, i: nat, key: string)
    requires Start(w)
    ensures var x := Interleave(w, schedule);
            i < |x.actors| && x.actors[i].phase.Failed? && key in x.actors[i].keys && key in x.leases
            ==> x.leases[key].holder != x.actors[i].holder
  {
    StartIsHopeful(w);
    RunIsHopeful(w, schedule);
    var x := Interleave(w, schedule);
    if i < |x.actors| && x.actors[i].phase.Failed? && key in x.actors[i].keys && !Idle(x.leases, key) {
      assert Accounted(x.leases, x.actors, key);
      var j, k := Owner(x, key);
      assert j != i;
    }
  }

  /** Two acquirers that have all their keys at the same time have no key in common. */
  lemma HoldersExclude(w: World, schedule: seq<nat>, i: nat, j: nat, key: string)
    requires Start(w) && i < j
    ensures var x := Interleave(w, schedule);
            j < |x.actors| && x.actors[i].phase.Holding? && x.actors[j].phase.Holding?
            ==> key !in x.actors[i].keys || key !in x.actors[j].keys
  {
    StartIsHopeful(w);
    RunIsHopeful(w, schedule);
    RunHoldsAll(w, schedule);
    var x := Interleave(w, schedule);
    if j < |x.actors| && x.actors[i].phase.Holding? && x.actors[j].phase.Holding?
       && key in x.actors[i].keys && key in x.actors[j].keys
    {
      NamedHolder(x, i, key);
      NamedHolder(x, j, key);
      assert false;
    }
  }

  lemma NamedHolder(w: World, i: nat, key: string)
    requires Bookkept(w) && HoldingAll(w) && i < |w.actors| && w.actors[i].phase.Holding? && key in w.actors[i].keys
    ensures key in w.leases && w.leases[key].holder == w.actors[i].holder
  {
    var m :| 0 <= m < |w.actors[i].keys| && w.actors[i].keys[m] == key;
    assert HoldsTaken(w.leases, w.actors[i]) && HoldsAt(w.leases, w.actors[i], m);
  }

  ghost predicate HoldingAll(w: World) {
    forall i | 0 <= i < |w.actors| && w.actors[i].phase.Holding? :: |w.actors[i].epochs| >= |w.actors[i].keys|
  }

  lemma {:induction false} RunHoldsAll(w: World, schedule: seq<nat>)
    requires HoldingAll(w)
    ensures HoldingAll(Interleave(w, schedule))
    decreases |schedule|
  {
    if schedule != [] { RunHoldsAll(Act(w, schedule[0]), schedule[1..]); }
  }

  /** The ascending order is needed: two acquirers that take the same keys in opposite orders can both fail. */
  lemma OppositeOrdersAllFail()
    ensures exists w: World, schedule ::
              |w.actors| == 2 && w.leases == map[] && w.actors[0].holder != w.actors[1].holder
              && forall i | 0 <= i < |Interleave(w, schedule).actors| :: Interleave(w, schedule).actors[i].Lost()
  {
    var a := Acquirer(["k", "l"], "a", 0, 9, [], Acquiring);
    var b := Acquirer(["l", "k"], "b", 0, 9, [], Acquiring);
    var w := World(map[], [a, b]);
    var w1, w2 := Act(w, 0), Act(Act(w, 0), 1);
    var k, l := Lease("k", "a", 1, 0, 9), Lease("l", "b", 1, 0, 9);
    assert w1.leases == map["k" := k] && w1.actors[0].epochs == [1];
    assert w1.actors == [a.(epochs := [1]), b];
    assert w2.leases == map["k" := k, "l" := l] && w2.actors[1].epochs == [1];
    assert w2 == World(map["k" := k, "l" := l], [a.(epochs := [1]), b.(epochs := [1])]);
    var w3 := Act(w2, 0);
    assert w3.leases == w2.leases && w3.actors[0].Lost() && w3.actors[1] == w2.actors[1];
    var w4 := Act(w3, 1);
    assert w4.actors[0].Lost() && w4.actors[1].Lost();
    FourSteps(w, 0, 1, 0, 1);
  }

  lemma FourSteps(w: World, a: nat, b: nat, c: nat, d: nat)
    ensures Interleave(w, [a, b, c, d]) == Act(Act(Act(Act(w, a), b), c), d)
  {
    assert [a, b, c, d][1..] == [b, c, d] && [b, c, d][1..] == [c, d] && [c, d][1..] == [d] && [d][1..] == [];
    var w3 := Act(Act(Act(w, a), b), c);
    assert Interleave(w3, [d]) == Act(w3, d);
    assert Interleave(Act(Act(w, a), b), [c, d]) == Interleave(w3, [d]);
  }
}

/** A set of leases taken in one call: in ascending order, all or none, and given back in reverse. The call is
    the protocol of `LeaseSets` with nobody else acting, and what it leaves behind is stated key by key. */
module LeaseSetClass {
  import opened CatalogModel
  import opened CatalogOps
  import opened CatalogClass
  import opened LeaseSets
  import Strings

  /** One lease for each shard of a table that a statement rewrites. */
  function Purpose(table: string, shard: string): string {
    "dml:" + table + ":" + shard
  }

  function Purposes(table: string, shards: seq<string>): set<string> {
    set s | s in shards :: Purpose(table, s)
  }

  /** Nobody else has the lease, or it has run out. */
  predicate Free(leases: map<string, Lease>, key: string, holder: string, now: nat) {
    key in leases && leases[key].holder != holder ==> leases[key].expiresAt <= now
  }

  /** The record of a lease once granted: a new epoch unless the holder already has it. */
  function Granted(leases: map<string, Lease>, key: string, holder: string, now: nat, ttl: nat): Lease {
    if key in leases && leases[key].holder == holder
    then Lease(key, holder, leases[key].epoch, leases[key].grantedAt, SatAdd(now, ttl))
    else Lease(key, holder, (if key in leases then leases[key].epoch else 0) + 1, now, SatAdd(now, ttl))
  }

  function Returned(l: Lease): Lease {
    l.(holder := "", expiresAt := 0)
  }

  /** Only the leases in `keys` differ. */
  ghost predicate OnlyOn(a: map<string, Lease>, b: map<string, Lease>, keys: seq<string>) {
    forall p | p !in keys :: (p in a <==> p in b) && (p in a ==> a[p] == b[p])
  }

  ghost predicate AllFree(leases: map<string, Lease>, keys: seq<string>, holder: string, now: nat) {
    forall key | key in keys :: Free(leases, key, holder, now)
  }

  ghost predicate AllGranted(a: map<string, Lease>, b: map<string, Lease>, keys: seq<string>, epochs: seq<nat>,
                             holder: string, now: nat, ttl: nat)
    requires |keys| == |epochs|
  {
    forall k | 0 <= k < |keys| :: keys[k] in b && b[keys[k]] == Granted(a, keys[k], holder, now, ttl)
                                  && epochs[k] == b[keys[k]].epoch
  }

  /** Back without a holder, under the epoch granted for it. */
  ghost predicate AllReturned(a: map<string, Lease>, b: map<string, Lease>, keys: seq<string>, holder: string,
                              now: nat, ttl: nat) {
    forall k | 0 <= k < |keys| :: keys[k] in b && b[keys[k]] == Returned(Granted(a, keys[k], holder, now, ttl))
  }

  lemma Distinct(keys: seq<string>, i: nat, j: nat)
    requires Strings.Ascending(keys) && i < |keys| && j < |keys| && keys[i] == keys[j]
    ensures i == j
  {
    Strings.Irreflexive(keys[i]);
  }

  lemma NotAmong(keys: seq<string>, i: nat)
    requires Strings.Ascending(keys) && i < |keys|
    ensures keys[i] !in keys[..i]
  {
    if keys[i] in keys[..i] {
      var j :| 0 <= j < i && keys[j] == keys[i];
      Distinct(keys, j, i);
    }
  }

  // ---------------------------------------------------------------- one more key

  lemma GrantOne(a: map<string, Lease>, b: map<string, Lease>, keys: seq<string>, i: nat, epochs: seq<nat>,
                 holder: string, now: nat, ttl: nat)
    requires Strings.Ascending(keys) && i < |keys| && |epochs| == i
    requires OnlyOn(a, b, keys[..i]) && AllGranted(a, b, keys[..i], epochs, holder, now, ttl)
    requires AllFree(a, keys[..i], holder, now)
    ensures var (c, g) := AcquireLease(b, keys[i], holder, now, ttl);
            && (g.granted <==> Free(a, keys[i], holder, now))
            && (g.granted ==> OnlyOn(a, c, keys[..i + 1]) && AllFree(a, keys[..i + 1], holder, now)
                              && AllGranted(a, c, keys[..i + 1], epochs + [g.epoch], holder, now, ttl))
            && (!g.granted ==> c == b)
  {
    NotAmong(keys, i);
    var key := keys[i];
    assert key in a <==> key in b;
    var (c, g) := AcquireLease(b, key, holder, now, ttl);
    assert keys[..i + 1] == keys[..i] + [key];
    if g.granted {
      assert c == b[key := Granted(a, key, holder, now, ttl)];
      forall k | 0 <= k <= i
        ensures keys[k] in c && c[keys[k]] == Granted(a, keys[k], holder, now, ttl)
                && (epochs + [g.epoch])[k] == c[keys[k]].epoch
      {
        if k < i {
          assert keys[..i][k] == keys[k];
        }
      }
    }
  }

  /** Giving back the last key still held: the others stay as they are. */
  lemma ReturnOne(a: map<string, Lease>, b: map<string, Lease>, keys: seq<string>, i: nat, epochs: seq<nat>,
                  holder: string, now: nat, ttl: nat)
    requires Strings.Ascending(keys) && i < |keys| && i < |epochs|
    requires OnlyOn(a, b, keys) && AllGranted(a, b, keys[..i + 1], epochs[..i + 1], holder, now, ttl)
    requires AllReturned(a, b, keys[i + 1..], holder, now, ttl)
    ensures var c := ReleaseLease(b, keys[i], holder, epochs[i]).0;
            && OnlyOn(a, c, keys) && AllGranted(a, c, keys[..i], epochs[..i], holder, now, ttl)
            && AllReturned(a, c, keys[i..], holder, now, ttl)
  {
    var key := keys[i];
    var c := ReleaseLease(b, key, holder, epochs[i]).0;
    assert keys[..i + 1][i] == key && key in b;
    assert c == b[key := Returned(b[key])];
    NotAmong(keys, i);
    Remaining(keys, i);
    forall k | 0 <= k < i
      ensures keys[k] in c && c[keys[k]] == Granted(a, keys[k], holder, now, ttl) && epochs[k] == c[keys[k]].epoch
    {
      assert keys[..i + 1][k] == keys[k] && keys[..i][k] == keys[k];
    }
    forall k | 0 <= k < |keys| - i
      ensures keys[i..][k] in c && c[keys[i..][k]] == Returned(Granted(a, keys[i..][k], holder, now, ttl))
    {
      if k > 0 { assert keys[i + 1..][k - 1] == keys[i..][k]; }
    }
  }

  // ---------------------------------------------------------------- the protocol, run alone

  function Alone(leases: map<string, Lease>, a: Acquirer): World {
    World(leases, [a])
  }

  function Asking(keys: seq<string>, holder: string, now: nat, ttl: nat): Acquirer {
    Acquirer(keys, holder, now, ttl, [], Acquiring)
  }

  predicate Asks(a: Acquirer) {
    (a.phase.Acquiring? || a.phase.RollingBack?) && |a.epochs| <= |a.keys|
  }

  /** How the request of an acquirer ends if nobody else acts, and the leases it leaves. */
  function Settle(leases: map<string, Lease>, a: Acquirer): (map<string, Lease>, Acquirer)
    requires Asks(a)
    decreases if a.phase.Acquiring? then 2 * |a.keys| + 1 - |a.epochs| else |a.epochs|
  {
    var n := |a.epochs|;
    if a.phase.Acquiring? then
      if n == |a.keys| then (leases, a.(phase := Holding))
      else
        var (after, grant) := AcquireLease(leases, a.keys[n], a.holder, a.now, a.ttl);
        if grant.granted then Settle(after, a.(epochs := a.epochs + [grant.epoch]))
        else Settle(leases, a.(phase := RollingBack(a.keys[n])))
    else if n == 0 then (leases, a.(phase := Failed(a.phase.refused)))
    else Settle(ReleaseLease(leases, a.keys[n - 1], a.holder, a.epochs[n - 1]).0, a.(epochs := a.epochs[..n - 1]))
  }

  /** The call is a run of the protocol in which only one acquirer acts. */
  lemma {:induction false} SettleIsProtocol(leases: map<string, Lease>, a: Acquirer) returns (schedule: seq<nat>)
    requires Asks(a)
    ensures Interleave(Alone(leases, a), schedule) == Alone(Settle(leases, a).0, Settle(leases, a).1)
    ensures forall i | i in schedule :: i == 0
    decreases if a.phase.Acquiring? then 2 * |a.keys| + 1 - |a.epochs| else |a.epochs|
  {
    var w, n := Alone(leases, a), |a.epochs|;
    var next := Act(w, 0);
    assert next == Alone(next.leases, next.actors[0]);
    if Asks(next.actors[0]) {
      var rest := SettleIsProtocol(next.leases, next.actors[0]);
      schedule := [0] + rest;
      assert schedule[1..] == rest;
    } else {
      schedule := [0];
      assert schedule[1..] == [];
    }
  }

  // ---------------------------------------------------------------- how the request ends

  /** The first `|a.epochs|` keys are granted and nothing else has changed. */
  ghost predicate Climbing(before: map<string, Lease>, leases: map<string, Lease>, a: Acquirer) {
    var n := |a.epochs|;
    && n <= |a.keys| && a.phase.Acquiring?
    && OnlyOn(before, leases, a.keys[..n]) && AllFree(before, a.keys[..n], a.holder, a.now)
    && AllGranted(before, leases, a.keys[..n], a.epochs, a.holder, a.now, a.ttl)
  }

  /** Of the first `took` keys, those that `a` no longer has are back. */
  ghost predicate Backing(before: map<string, Lease>, leases: map<string, Lease>, a: Acquirer, took: nat) {
    var n := |a.epochs|;
    && n <= took <= |a.keys| && a.phase.RollingBack?
    && OnlyOn(before, leases, a.keys[..took])
    && AllGranted(before, leases, a.keys[..n], a.epochs, a.holder, a.now, a.ttl)
    && AllReturned(before, leases, a.keys[n..took], a.holder, a.now, a.ttl)
  }

  lemma BackStep(before: map<string, Lease>, leases: map<string, Lease>, a: Acquirer, took: nat)
    requires Backing(before, leases, a, took) && a.epochs != [] && Strings.Ascending(a.keys)
    ensures var n := |a.epochs| - 1;
            Backing(before, ReleaseLease(leases, a.keys[n], a.holder, a.epochs[n]).0, a.(epochs := a.epochs[..n]), took)
  {
    var n := |a.epochs| - 1;
    var mine := a.keys[..took];
    assert mine[..n] == a.keys[..n] && mine[..n + 1] == a.keys[..n + 1];
    assert mine[n..] == a.keys[n..took] && mine[n + 1..] == a.keys[n + 1..took];
    assert a.epochs[..n + 1] == a.epochs;
    ReturnOne(before, leases, mine, n, a.epochs, a.holder, a.now, a.ttl);
  }

  lemma {:induction false} BackAll(before: map<string, Lease>, leases: map<string, Lease>, a: Acquirer, took: nat)
    requires Backing(before, leases, a, took) && Strings.Ascending(a.keys)
    ensures var (after, end) := Settle(leases, a);
            && end == a.(phase := Failed(a.phase.refused), epochs := [])
            && OnlyOn(before, after, a.keys[..took])
                && AllReturned(before, after, a.keys[..took], a.holder, a.now, a.ttl)
    decreases |a.epochs|
  {
    var n := |a.epochs|;
    if n == 0 {
      assert a.keys[0..took] == a.keys[..took];
    } else {
      BackStep(before, leases, a, took);
      BackAll(before, ReleaseLease(leases, a.keys[n - 1], a.holder, a.epochs[n - 1]).0,
          a.(epochs := a.epochs[..n - 1]), took);
    }
  }

  /** Key `i` is the first that is not free: the ones before it are back, and no other lease changed. */
  ghost predicate Refused(before: map<string, Lease>, after: map<string, Lease>, a: Acquirer, i: nat) {
    && i < |a.keys| && !Free(before, a.keys[i], a.holder, a.now)
    && AllFree(before, a.keys[..i], a.holder, a.now)
    && OnlyOn(before, after, a.keys[..i]) && AllReturned(before, after, a.keys[..i], a.holder, a.now, a.ttl)
  }

  ghost predicate Ended(before: map<string, Lease>, a: Acquirer, after: map<string, Lease>, end: Acquirer) {
    if end.phase.Holding? then
      && |end.epochs| == |a.keys| && AllFree(before, a.keys, a.holder, a.now)
      && OnlyOn(before, after, a.keys) && AllGranted(before, after, a.keys, end.epochs, a.holder, a.now, a.ttl)
    else end.phase.Failed? && exists i: nat :: Refused(before, after, a, i)
  }

  lemma {:induction false} ClimbAll(before: map<string, Lease>, leases: map<string, Lease>, a: Acquirer)
    requires Climbing(before, leases, a) && Strings.Ascending(a.keys)
    ensures Ended(before, a.(epochs := []), Settle(leases, a).0, Settle(leases, a).1)
    decreases |a.keys| - |a.epochs|
  {
    var n := |a.epochs|;
    if n == |a.keys| {
      assert a.keys[..n] == a.keys;
    } else {
      GrantOne(before, leases, a.keys, n, a.epochs, a.holder, a.now, a.ttl);
      var (after, grant) := AcquireLease(leases, a.keys[n], a.holder, a.now, a.ttl);
      if grant.granted {
        ClimbAll(before, after, a.(epochs := a.epochs + [grant.epoch]));
      } else {
        BackAll(before, leases, a.(phase := RollingBack(a.keys[n])), n);
        assert Refused(before, Settle(leases, a).0, a.(epochs := []), n);
      }
    }
  }

  /** All the leases are granted, exactly when every one of them is free; or the ones taken on the way are back
      and every other lease is as it was. */
  lemma AllOrNothing(leases: map<string, Lease>, keys: seq<string>, holder: string, now: nat, ttl: nat)
    requires Strings.Ascending(keys)
    ensures var a := Asking(keys, holder, now, ttl);
            var (after, end) := Settle(leases, a);
            && Ended(leases, a, after, end)
            && (end.phase.Holding? <==> AllFree(leases, keys, holder, now))
  {
    var a := Asking(keys, holder, now, ttl);
    ClimbAll(leases, leases, a);
    var (after, end) := Settle(leases, a);
    if !end.phase.Holding? {
      var i: nat :| Refused(leases, after, a, i);
      assert keys[i] in keys;
    }
  }

  lemma FreeAt(leases: map<string, Lease>, keys: seq<string>, holder: string, now: nat, n: nat, i: nat)
    requires n <= |keys|
    ensures AllFree(leases, keys[..n], holder, now) && i < n ==> Free(leases, keys[i], holder, now)
  {
    if i < n { assert keys[..n][i] == keys[i]; }
  }

  /** A lease that the holder had before a failed request is still its own exactly if its key comes after the key that
      was refused; otherwise the request handed it back. */
  lemma OwnLeaseSurvivesIff(leases: map<string, Lease>, keys: seq<string>, holder: string, now: nat, ttl: nat, i: nat,
                            j: nat)
    requires Strings.Ascending(keys) && i < |keys| && j < |keys| && holder != ""
    requires keys[i] in leases && leases[keys[i]].holder == holder
    requires AllFree(leases, keys[..j], holder, now) && !Free(leases, keys[j], holder, now)
    ensures var after := Settle(leases, Asking(keys, holder, now, ttl)).0;
            && keys[i] in after && (after[keys[i]].holder == holder <==> j < i)
            && after[keys[i]] == if j < i then leases[keys[i]]
                                 else Lease(keys[i], "", leases[keys[i]].epoch, leases[keys[i]].grantedAt, 0)
  {
    assert keys[j] in keys;
    AllOrNothing(leases, keys, holder, now, ttl);
    var a := Asking(keys, holder, now, ttl);
    var after := Settle(leases, a).0;
    var m: nat :| Refused(leases, after, a, m);
    FreeAt(leases, keys, holder, now, j, m);
    FreeAt(leases, keys, holder, now, m, j);
    if i < j { assert keys[..m][i] == keys[i]; } else { NotBefore(keys, m, i); }
  }

  lemma NotBefore(keys: seq<string>, m: nat, i: nat)
    requires Strings.Ascending(keys) && m <= i < |keys|
    ensures keys[i] !in keys[..m]
  {
    NotAmong(keys, i);
    assert forall k | k in keys[..m] :: k in keys[..i];
  }

  // ---------------------------------------------------------------- the class

  class LeaseSet {
    const catalog: CatalogState
    const purposes: seq<string>
    const holder: string
    const epochs: seq<nat>

    constructor (catalog: CatalogState, purposes: seq<string>, holder: string, epochs: seq<nat>)
      ensures this.catalog == catalog && this.purposes == purposes && this.holder == holder && this.epochs == epochs
    {
      this.catalog, this.purposes, this.holder, this.epochs := catalog, purposes, holder, epochs;
    }

    ghost predicate Valid() {
      Strings.Ascending(purposes) && |epochs| == |purposes|
    }

    /** Gives back every lease that is still the caller's under the recorded epoch, and touches no other. */
    method Release()
      requires Valid()
      modifies catalog`leases
      ensures OnlyOn(old(catalog.leases), catalog.leases, purposes)
      ensures forall k | 0 <= k < |purposes| && purposes[k] in old(catalog.leases) ::
                var was := old(catalog.leases)[purposes[k]];
                purposes[k] in catalog.leases && catalog.leases[purposes[k]]
                == if was.holder == holder && was.epoch == epochs[k] then Returned(was) else was
      ensures forall p | p !in old(catalog.leases) :: p !in catalog.leases
    {
      ghost var was := catalog.leases;
      for k := |purposes| downto 0
        invariant OnlyOn(was, catalog.leases, purposes[k..])
        invariant GivenBack(was, catalog.leases, k)
        invariant catalog.leases.Keys == was.Keys
      {
        Remaining(purposes, k);
        var _ := catalog.ReleaseLease(purposes[k], holder, epochs[k]);
      }
      assert purposes[0..] == purposes;
    }

    /** From `k` on, what could be given back was. */
    ghost predicate GivenBack(a: map<string, Lease>, b: map<string, Lease>, k: nat)
      requires Valid()
    {
      forall i | k <= i < |purposes| && purposes[i] in a :: purposes[i] in b && b[purposes[i]]
        == if a[purposes[i]].holder == holder && a[purposes[i]].epoch == epochs[i] then Returned(a[purposes[i]])
           else a[purposes[i]]
    }
  }

  lemma Remaining(keys: seq<string>, k: nat)
    requires Strings.Ascending(keys) && k < |keys|
    ensures keys[k] !in keys[k + 1..] && keys[k..] == [keys[k]] + keys[k + 1..]
    ensures forall i | k < i < |keys| :: keys[i] != keys[k]
  {
    forall i | k < i < |keys| ensures keys[i] != keys[k] {
      if keys[i] == keys[k] { Distinct(keys, i, k); }
    }
  }


  /** Gives back what was taken, the last key first. */
  method RollBack(catalog: CatalogState, keys: seq<string>, epochs: seq<nat>, holder: string, ghost a: Acquirer)
    requires Asks(a) && a.phase.RollingBack? && a.keys == keys && a.holder == holder && a.epochs == epochs
    modifies catalog`leases
    ensures (catalog.leases, a.(phase := Failed(a.phase.refused), epochs := [])) == Settle(old(catalog.leases), a)
  {
    assert epochs[..|epochs|] == epochs;
    for k := |epochs| downto 0
      invariant Settle(catalog.leases, a.(epochs := epochs[..k])) == Settle(old(catalog.leases), a)
    {
      assert epochs[..k + 1][..k] == epochs[..k];
      var _ := catalog.ReleaseLease(keys[k], holder, epochs[k]);
    }
  }

  /** Takes the lease of every shard, or none of them. */
  method Acquire(catalog: CatalogState, table: string, shards: seq<string>, holder: string, ttl: nat, now: nat)
    returns (r: Result<LeaseSet>)
    modifies catalog`leases
    ensures var a := Asking(Strings.Listing(Purposes(table, shards)), holder, now, ttl);
            var (after, end) := Settle(old(catalog.leases), a);
            && catalog.leases == after
            && (r.Ok? <==> end.phase.Holding?)
            && (r.Err? ==> r.error == LeaseTaken)
            && (r.Ok? ==> fresh(r.value) && r.value.catalog == catalog && r.value.holder == holder
                          && r.value.purposes == a.keys && r.value.epochs == end.epochs)
  {
    var purposes := Sorted(Purposes(table, shards));
    ghost var a := Asking(purposes, holder, now, ttl);
    var epochs := [];
    for i := 0 to |purposes|
      invariant |epochs| == i && Settle(catalog.leases, a.(epochs := epochs)) == Settle(old(catalog.leases), a)
    {
      var grant := catalog.AcquireLease(purposes[i], holder, now, ttl);
      if !grant.granted {
        RollBack(catalog, purposes, epochs, holder, a.(epochs := epochs, phase := RollingBack(purposes[i])));
        return Err(LeaseTaken);
      }
      epochs := epochs + [grant.epoch];
    }
    var held := new LeaseSet(catalog, purposes, holder, epochs);
    return Ok(held);
  }
}

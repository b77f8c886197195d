/** Safety of leases over whole runs: epochs, fencing, and disjoint tenures. */
module Leases {
  import opened CatalogModel
  import opened CatalogOps

  // ---- epochs

  /** A later record of the same lease: a larger epoch, or the same one with its holder or nobody. */
  ghost predicate Follows(l: Lease, m: Lease) {
    l.epoch < m.epoch || (l.epoch == m.epoch && (m.holder == l.holder || m.holder == ""))
  }

  ghost predicate AllFollow(a: map<string, Lease>, b: map<string, Lease>) {
    forall p | p in a :: p in b && Follows(a[p], b[p])
  }

  lemma StepFollows(s: State, op: Op)
    ensures AllFollow(s.leases, Step(s, op).leases)
  {
  }

  lemma {:induction false} RunFollows(s: State, ops: seq<Op>)
    ensures AllFollow(s.leases, Run(s, ops).leases)
    decreases |ops|
  {
    if ops != [] {
      StepFollows(s, ops[0]);
      RunFollows(Step(s, ops[0]), ops[1..]);
    }
  }

  /** Over any run the epoch of a lease never decreases, and a new holder has a larger one. */
  lemma EpochGrowsWithHolder(s: State, ops: seq<Op>, p: string)
    requires p in s.leases
    ensures var t := Run(s, ops);
            && p in t.leases && s.leases[p].epoch <= t.leases[p].epoch
            && (t.leases[p].holder != "" && t.leases[p].holder != s.leases[p].holder
                ==> s.leases[p].epoch < t.leases[p].epoch)
  {
    RunFollows(s, ops);
  }

  // ---- fencing

  /** Whatever happens after an epoch larger than `epoch` was recorded, `epoch` has lost all its power. */
  lemma StaleEpochIsPowerless(s: State, ops: seq<Op>, p: string, epoch: nat)
    requires p in s.leases && epoch < s.leases[p].epoch
    ensures forall h, now, ttl :: !RenewLease(Run(s, ops).leases, p, h, epoch, now, ttl).1
    ensures forall h :: !ReleaseLease(Run(s, ops).leases, p, h, epoch).1
    ensures forall olds, news, declared | p == (if declared == "" then COMPACTION_LEASE else declared) ::
              CommitCompaction(Run(s, ops), olds, news, epoch, declared) == (Run(s, ops), Err(Fenced))
  {
    RunFollows(s, ops);
  }

  // ---- tenures

  /** The clock readings carried by the lease operations. */
  function Clock(op: Op): Option<nat> {
    if op.OpAcquireLease? || op.OpRenewLease? then Some(op.now) else None
  }

  ghost predicate ClocksAdvance(ops: seq<Op>, from: nat)
    decreases |ops|
  {
    ops == [] || match Clock(ops[0])
      case None => ClocksAdvance(ops[1..], from)
      case Some(now) => from <= now && ClocksAdvance(ops[1..], now)
  }

  function Record(past: map<nat, Lease>, leases: map<string, Lease>, p: string): map<nat, Lease> {
    if p in leases then past[leases[p].epoch := leases[p]] else past
  }

  /** The last record of each epoch of lease `p`: its holder had it from `grantedAt` to `expiresAt`. */
  ghost function Tenures(past: map<nat, Lease>, s: State, ops: seq<Op>, p: string): map<nat, Lease>
    decreases |ops|
  {
    if ops == [] then past
    else Tenures(Record(past, Step(s, ops[0]).leases, p), Step(s, ops[0]), ops[1..], p)
  }

  ghost predicate Ordered(tenures: map<nat, Lease>) {
    forall e, f | e in tenures && f in tenures && e < f :: tenures[e].expiresAt <= tenures[f].grantedAt
  }

  /** `past` ends with the current record of the lease. */
  ghost predicate Tracks(past: map<nat, Lease>, leases: map<string, Lease>, p: string) {
    && (p !in leases ==> past == map[])
    && (p in leases ==>
          && leases[p].epoch in past && past[leases[p].epoch] == leases[p]
              && forall e | e in past :: e <= leases[p].epoch)
  }

  /** The record stays, is prolonged or released by its holder, or a new epoch starts. */
  ghost predicate Moves(a: map<string, Lease>, b: map<string, Lease>, p: string) {
    p in a ==>
      p in b
      && ((b[p].epoch == a[p].epoch && b[p].grantedAt == a[p].grantedAt) || b[p].epoch == a[p].epoch + 1)
  }

  lemma StepMoves(s: State, op: Op, p: string)
    ensures Moves(s.leases, Step(s, op).leases, p)
  {
  }

  /** A new epoch is granted at a reading not before any recorded end of an earlier one. */
  ghost predicate InTime(past: map<nat, Lease>, a: map<string, Lease>, b: map<string, Lease>, p: string) {
    p in b && (p !in a || b[p].epoch != a[p].epoch) ==> forall e | e in past :: past[e].expiresAt <= b[p].grantedAt
  }

  ghost predicate AllInTime(past: map<nat, Lease>, s: State, ops: seq<Op>, p: string)
    decreases |ops|
  {
    ops == [] || (InTime(past, s.leases, Step(s, ops[0]).leases, p)
                  && AllInTime(Record(past, Step(s, ops[0]).leases, p), Step(s, ops[0]), ops[1..], p))
  }

  lemma MoveTracks(past: map<nat, Lease>, a: map<string, Lease>, b: map<string, Lease>, p: string)
    requires Tracks(past, a, p) && Moves(a, b, p)
    ensures Tracks(Record(past, b, p), b, p)
    ensures Ordered(Record(past, b, p)) <==> Ordered(past) && InTime(past, a, b, p)
  {
    var now := Record(past, b, p);
    if p in b && (p !in a || b[p].epoch != a[p].epoch) {
      assert forall e | e in past :: e < b[p].epoch && now[e] == past[e];
      if Ordered(now) {
        forall e, f | e in past && f in past && e < f ensures past[e].expiresAt <= past[f].grantedAt {
          assert now[e].expiresAt <= now[f].grantedAt;
        }
      }
    } else if p in a {
      SameOrder(past, now, a[p].epoch);
    }
  }

  /** Only the last tenure changes, and not its beginning. */
  lemma SameOrder(past: map<nat, Lease>, now: map<nat, Lease>, last: nat)
    requires last in past && now.Keys == past.Keys && now[last].grantedAt == past[last].grantedAt
    requires forall e | e in past :: e <= last && (e != last ==> now[e] == past[e])
    ensures Ordered(now) <==> Ordered(past)
  {
    if Ordered(now) {
      forall e, f | e in past && f in past && e < f ensures past[e].expiresAt <= past[f].grantedAt {
        assert now[e].expiresAt <= now[f].grantedAt;
      }
    }
    if Ordered(past) {
      forall e, f | e in now && f in now && e < f ensures now[e].expiresAt <= now[f].grantedAt {
        assert past[e].expiresAt <= past[f].grantedAt;
      }
    }
  }

  lemma {:induction false} TenuresFollowIff(past: map<nat, Lease>, s: State, ops: seq<Op>, p: string)
    requires Tracks(past, s.leases, p)
    ensures Ordered(Tenures(past, s, ops, p)) <==> Ordered(past) && AllInTime(past, s, ops, p)
    decreases |ops|
  {
    if ops != [] {
      var t := Step(s, ops[0]);
      StepMoves(s, ops[0], p);
      MoveTracks(past, s.leases, t.leases, p);
      TenuresFollowIff(Record(past, t.leases, p), t, ops[1..], p);
    }
  }

  /** Over any run every recorded tenure of a lease ends before each later one begins if and only if no grant of a new
      epoch carries a clock reading before the recorded end of an earlier tenure. */
  lemma TenuresOrderedIff(s: State, ops: seq<Op>, p: string)
    requires p !in s.leases
    ensures Ordered(Tenures(map[], s, ops, p)) <==> AllInTime(map[], s, ops, p)
  {
    TenuresFollowIff(map[], s, ops, p);
  }

  // ---- clocks that do not go back

  /** The beginnings of the recorded tenures have passed, and all but the last are over. */
  ghost predicate Passed(past: map<nat, Lease>, leases: map<string, Lease>, p: string, clock: nat) {
    && Tracks(past, leases, p)
    && (p in leases ==> leases[p].grantedAt <= clock)
    && forall e | e in past && p in leases && e != leases[p].epoch :: past[e].expiresAt <= clock
  }

  function After(op: Op, clock: nat): nat {
    if Clock(op).Some? then Clock(op).value else clock
  }

  lemma StepPasses(past: map<nat, Lease>, s: State, op: Op, p: string, clock: nat)
    requires Passed(past, s.leases, p, clock) && clock <= After(op, clock)
    ensures InTime(past, s.leases, Step(s, op).leases, p)
    ensures Passed(Record(past, Step(s, op).leases, p), Step(s, op).leases, p, After(op, clock))
  {
    StepMoves(s, op, p);
    MoveTracks(past, s.leases, Step(s, op).leases, p);
  }

  lemma {:induction false} AdvancingInTime(past: map<nat, Lease>, s: State, ops: seq<Op>, p: string, clock: nat)
    requires Passed(past, s.leases, p, clock) && ClocksAdvance(ops, clock)
    ensures AllInTime(past, s, ops, p)
    decreases |ops|
  {
    if ops != [] {
      StepPasses(past, s, ops[0], p, clock);
      AdvancingInTime(Record(past, Step(s, ops[0]).leases, p), Step(s, ops[0]), ops[1..], p, After(ops[0], clock));
    }
  }

  /** While clocks do not go back, no instant belongs to two tenures of the same lease. */
  lemma TenuresDisjoint(s: State, ops: seq<Op>, p: string, e: nat, f: nat, instant: nat)
    requires p !in s.leases && ClocksAdvance(ops, 0)
    requires var h := Tenures(map[], s, ops, p);
             && e in h && f in h
             && h[e].grantedAt <= instant < h[e].expiresAt && h[f].grantedAt <= instant < h[f].expiresAt
    ensures e == f
  {
    AdvancingInTime(map[], s, ops, p, 0);
    TenuresOrderedIff(s, ops, p);
  }

  lemma OneMore(past: map<nat, Lease>, s: State, op: Op, rest: seq<Op>, l: Lease)
    requires Step(s, op).leases == map[l.purpose := l]
    ensures Tenures(past, s, [op] + rest, l.purpose) == Tenures(past[l.epoch := l], Step(s, op), rest, l.purpose)
  {
    assert ([op] + rest)[1..] == rest;
  }

  function BackwardRun(): seq<Op> {
    [OpAcquireLease("p", "a", 100, 50)] + ([OpAcquireLease("p", "b", 150, 50)]
    + ([OpReleaseLease("p", "b", 2)] + ([OpAcquireLease("p", "c", 120, 50)] + [])))
  }

  /** A run with a clock that goes back after a release: at instant 120 the lease is both of the first and of the
      third. */
  lemma ClockGoingBackOverlaps()
    ensures var h := Tenures(map[], Initial(), BackwardRun(), "p");
            1 in h && 3 in h && h[1].grantedAt <= 120 < h[1].expiresAt && h[3].grantedAt <= 120 < h[3].expiresAt
  {
    var s := Initial();
    var o1, o2 := OpAcquireLease("p", "a", 100, 50), OpAcquireLease("p", "b", 150, 50);
    var o3, o4 := OpReleaseLease("p", "b", 2), OpAcquireLease("p", "c", 120, 50);
    var l1, l2 := Lease("p", "a", 1, 100, 150), Lease("p", "b", 2, 150, 200);
    var l3, l4 := Lease("p", "", 2, 150, 0), Lease("p", "c", 3, 120, 170);
    OneMore(map[], s, o1, [o2] + ([o3] + ([o4] + [])), l1);
    var s1 := Step(s, o1);
    OneMore(map[1 := l1], s1, o2, [o3] + ([o4] + []), l2);
    var s2 := Step(s1, o2);
    OneMore(map[1 := l1, 2 := l2], s2, o3, [o4] + [], l3);
    OneMore(map[1 := l1, 2 := l3], Step(s2, o3), o4, [], l4);
  }
}

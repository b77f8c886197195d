/** The statements of the log are applied again after every start. A purge is not tied to the rows it was meant for:
    this says which files, and which rows, the replay takes away. */
module DmlReplay {
  import opened CatalogModel
  import opened CatalogOps
  import opened Evolution
  import opened CatalogClass
  import opened WalLog
  import opened WalRecovery
  import opened Restart
  import Replay

  // ---------------------------------------------------------------- one record

  /** Vectors that delete nothing are left out, and the table is that of the statement. */
  function Meaningful(entries: seq<Dv>, table: string): seq<Dv> {
    if entries == [] then []
    else (if entries[0].card == 0 then [] else [entries[0].(table := table)]) + Meaningful(entries[1..], table)
  }

  function OfTable(files: seq<File>, table: string): seq<File> {
    seq(|files|, i requires 0 <= i < |files| => files[i].(table := table, validFrom := 0, deletedAt := 0))
  }

  predicate Statement(r: Record) {
    r.Deleted? || r.Updated? || r.Purged?
  }

  /** The check before a statement: its table is alive at its own position, in the epoch it carries, if it carries
      one. */
  predicate Replayed(log: seq<Record>, q: nat) {
    q < |log| && Statement(log[q]) &&
    var l := LifeAfter(log, q + 1, log[q].table);
    l.alive && (log[q].epoch == 0 || l.epoch == log[q].epoch)
  }

  function ErrorOf<T>(r: Result<T>): Option<Error> {
    match r
    case Ok(_) => None
    case Err(e) => Some(e)
  }

  function Apply(s: State, r: Record, now: nat): (State, Option<Error>)
    requires Statement(r)
  {
    match r
    case Deleted(table, all, _) =>
      var entries := Meaningful(all, table);
      if entries == [] then (s, None)
      else var (t, answer) := ApplyDeletions(s, entries); (t, ErrorOf(answer))
    case Updated(table, updId, all, files, _) =>
      var entries := Meaningful(all, table);
      if entries == [] && files == [] then (s, None)
      else var (t, answer) := ApplyUpdate(s, entries, OfTable(files, table), updId, now); (t, ErrorOf(answer))
    case Purged(table, purgeId, _) =>
      var (t, answer) := PurgeTable(s, table, purgeId); (t, ErrorOf(answer))
  }

  /** The first `n` records; an error ends the replay, and with it the start of the server. */
  function ReplayTo(s: State, log: seq<Record>, n: nat, now: nat): (State, Option<Error>)
    requires n <= |log|
  {
    if n == 0 then (s, None)
    else
      var (t, error) := ReplayTo(s, log, n - 1, now);
      if error.None? && Replayed(log, n - 1) then Apply(t, log[n - 1], now) else (t, error)
  }

  // ---------------------------------------------------------------- on the catalog itself

  method TimelineOf(log: seq<Record>) returns (timeline: seq<(nat, Ddl, string)>)
    ensures Timeline(log, timeline)
  {
    timeline := [];
    for i := 0 to |log|
      invariant Timeline(log[..i], timeline)
    {
      assert log[..i + 1] == log[..i] + [log[i]];
      if log[i].DdlRecord? {
        OneMoreDefinition(log[..i], timeline, log[i]);
        timeline := timeline + [(i, log[i].op, log[i].table)];
      } else {
        assert Timeline(log[..i + 1], timeline);
      }
    }
    assert log[..|log|] == log;
  }

  lemma OneMoreDefinition(log: seq<Record>, timeline: seq<(nat, Ddl, string)>, r: Record)
    requires Timeline(log, timeline) && r.DdlRecord?
    ensures Timeline(log + [r], timeline + [(|log|, r.op, r.table)])
  {
    var longer := timeline + [(|log|, r.op, r.table)];
    assert longer[|timeline|].0 == |log|;
    forall j | 0 <= j < |log + [r]| && (log + [r])[j].DdlRecord?
      ensures exists k :: 0 <= k < |longer| && longer[k].0 == j {
      if j < |log| {
        var k :| 0 <= k < |timeline| && timeline[k].0 == j;
        assert longer[k].0 == j;
      }
    }
  }

  method ApplyOn(catalog: CatalogState, r: Record, now: nat) returns (error: Option<Error>)
    requires Statement(r)
    modifies catalog
    ensures (catalog.StateView(), error) == Apply(old(catalog.StateView()), r, now)
  {
    match r {
      case Deleted(table, all, _) =>
        var entries := Meaningful(all, table);
        if entries == [] { return None; }
        var answer := catalog.ApplyDeletions(entries, now);
        return ErrorOf(answer);
      case Updated(table, updId, all, files, _) =>
        var entries := Meaningful(all, table);
        if entries == [] && files == [] { return None; }
        var answer := catalog.ApplyUpdate(entries, OfTable(files, table), updId, now);
        return ErrorOf(answer);
      case Purged(table, purgeId, _) =>
        var answer := catalog.PurgeTable(table, purgeId, now);
        return ErrorOf(answer);
    }
  }

  method ReplayDml(catalog: CatalogState, log: seq<Record>, now: nat) returns (error: Option<Error>)
    modifies catalog
    ensures (catalog.StateView(), error) == ReplayTo(old(catalog.StateView()), log, |log|, now)
  {
    var timeline := TimelineOf(log);
    ghost var s := catalog.StateView();
    error := None;
    for q := 0 to |log|
      invariant error == None && (catalog.StateView(), error) == ReplayTo(s, log, q, now)
    {
      ReplayNext(s, log, q, now);
      error := ReplayOne(catalog, timeline, log, q, now);
      if error.Some? {
        Stopped(s, log, q + 1, |log|, now);
        return error;
      }
    }
  }

  lemma ReplayNext(s: State, log: seq<Record>, q: nat, now: nat)
    requires q < |log| && ReplayTo(s, log, q, now).1.None?
    ensures ReplayTo(s, log, q + 1, now)
            == if Replayed(log, q) then Apply(ReplayTo(s, log, q, now).0, log[q], now) else ReplayTo(s, log, q, now)
  {
  }

  method ReplayOne(catalog: CatalogState, timeline: seq<(nat, Ddl, string)>, log: seq<Record>, q: nat, now: nat)
    returns (error: Option<Error>)
    requires Timeline(log, timeline) && q < |log|
    modifies catalog
    ensures (catalog.StateView(), error)
            == if Replayed(log, q) then Apply(old(catalog.StateView()), log[q], now)
                else (old(catalog.StateView()), None)
  {
    if !Statement(log[q]) { return None; }
    var alive, epoch := LivenessAt(timeline, q, log[q].table, log);
    if !alive || (log[q].epoch != 0 && epoch != log[q].epoch) { return None; }
    error := ApplyOn(catalog, log[q], now);
  }

  lemma {:induction false} Stopped(s: State, log: seq<Record>, m: nat, n: nat, now: nat)
    requires m <= n <= |log| && ReplayTo(s, log, m, now).1.Some?
    ensures ReplayTo(s, log, n, now) == ReplayTo(s, log, m, now)
    decreases n
  {
    if m < n { Stopped(s, log, m, n - 1, now); }
  }

  // ---------------------------------------------------------------- which files the replay takes away

  /** A replayed purge of the table under an identifier that neither the catalog nor an earlier purge of the replay
      had. */
  predicate Takes(s: State, log: seq<Record>, q: nat, table: string) {
    && Replayed(log, q) && log[q].Purged? && log[q].table == table && log[q].purgeId !in s.purged
    && forall p | 0 <= p < q && Replayed(log, p) && log[p].Purged? :: log[p].purgeId != log[q].purgeId
  }

  /** Where the file stands after `n` records that gave no error. */
  ghost predicate Stands(s: State, t: State, log: seq<Record>, n: nat, b: string)
    requires b in s.data.files && n <= |log|
  {
    && b in t.data.files && t.data.files[b].table == s.data.files[b].table
        && t.data.files[b].batchId == s.data.files[b].batchId
    && (t.data.files[b].deletedAt == 0 <==> forall q: nat | q < n :: !Takes(s, log, q, s.data.files[b].table))
    && (forall i ::
          i in t.purged <==>
          i in s.purged || exists p: nat :: p < n && Replayed(log, p) && log[p].Purged? && log[p].purgeId == i)
  }

  lemma ApplyKeepsFiles(s: State, r: Record, now: nat, b: string)
    requires Statement(r) && !r.Purged? && b in s.data.files
    ensures var t := Apply(s, r, now).0; b in t.data.files && t.data.files[b] == s.data.files[b] && t.purged == s.purged
  {
    if r.Updated? { UpdateKeepsFiles(s, Meaningful(r.entries, r.table), OfTable(r.files, r.table), r.updId, now, b); }
  }

  lemma UpdateKeepsFiles(s: State, entries: seq<Dv>, files: seq<File>, updId: string, now: nat, b: string)
    requires b in s.data.files
    ensures var t := ApplyUpdate(s, entries, files, updId, now).0;
            b in t.data.files && t.data.files[b] == s.data.files[b] && t.purged == s.purged
  {
    AddedKeepFiles(s.data, FreshFiles(s.data.files, files), FreshDvs(s.data.dvs, entries), b);
    FreshFilesSpec(s.data.files, files);
  }

  lemma AddedKeepFiles(d: Data, files: seq<File>, dvs: seq<Dv>, b: string)
    requires b in d.files
    ensures b !in BatchIds(files) ==> var e := DataUpdate(d, files, dvs); b in e.files && e.files[b] == d.files[b]
  {
    AddFilesSpec(d.files, files, d.snapshot + 1);
  }

  lemma ApplyPurges(s: State, r: Record, now: nat, b: string)
    requires Statement(r) && r.Purged? && b in s.data.files && Apply(s, r, now).1.None?
    ensures var t := Apply(s, r, now).0;
            && b in t.data.files && t.data.files[b].table == s.data.files[b].table
                && t.data.files[b].batchId == s.data.files[b].batchId
            && (t.data.files[b].deletedAt == 0 <==>
                s.data.files[b].deletedAt == 0 && !(r.table == s.data.files[b].table && r.purgeId !in s.purged))
            && t.purged.Keys == s.purged.Keys + {r.purgeId}
  {
    assert s.data.files[b].deletedAt == 0 && s.data.files[b].table == r.table ==> b in Victims(s.data.files, r.table);
  }

  /** A file that was live stays live exactly if no purge of the replay takes its table. */
  lemma {:induction false} SurvivesIff(s: State, log: seq<Record>, n: nat, now: nat, b: string)
    requires n <= |log| && b in s.data.files && s.data.files[b].deletedAt == 0 && ReplayTo(s, log, n, now).1.None?
    ensures Stands(s, ReplayTo(s, log, n, now).0, log, n, b)
    decreases n
  {
    if n > 0 {
      var t := ReplayTo(s, log, n - 1, now).0;
      SurvivesIff(s, log, n - 1, now, b);
      if Replayed(log, n - 1) {
        if log[n - 1].Purged? { ApplyPurges(t, log[n - 1], now, b); } else { ApplyKeepsFiles(t, log[n - 1], now, b); }
      }
      StandsOn(s, t, ReplayTo(s, log, n, now).0, log, n, b);
    }
  }

  lemma StandsOn(s: State, t: State, u: State, log: seq<Record>, n: nat, b: string)
    requires 0 < n <= |log| && b in s.data.files && Stands(s, t, log, n - 1, b)
    requires b in u.data.files && u.data.files[b].table == t.data.files[b].table
             && u.data.files[b].batchId == t.data.files[b].batchId
    requires var r := log[n - 1];
             if Replayed(log, n - 1) && r.Purged? then
               && (u.data.files[b].deletedAt == 0 <==>
                   t.data.files[b].deletedAt == 0 && !(r.table == t.data.files[b].table && r.purgeId !in t.purged))
               && u.purged.Keys == t.purged.Keys + {r.purgeId}
             else u.data.files[b] == t.data.files[b] && u.purged == t.purged
    ensures Stands(s, u, log, n, b)
  {
    var r, table := log[n - 1], s.data.files[b].table;
    assert Takes(s, log, n - 1, table)
           <==> Replayed(log, n - 1) && r.Purged? && r.table == table && r.purgeId !in t.purged;
  }

  // ---------------------------------------------------------------- a whole start

  /** The catalog when the server starts to serve: recovered from the batches, then from the statements. */
  ghost function Served(d: Disk, now: nat): (State, Option<Error>) {
    ReplayTo(Started(d, now), d.log, |d.log|, now)
  }

  predicate TakenBy(log: seq<Record>, p: nat, table: string) {
    Takes(Initial(), log, p, table)
  }

  /** A replayed purge of the table after the row. */
  ghost predicate Followed(log: seq<Record>, q: nat, table: string) {
    exists p: nat :: q < p && Replayed(log, p) && log[p].Purged? && log[p].table == table
  }

  ghost predicate Gone(d: Disk, now: nat, i: nat)
    requires i < |d.batches|
  {
    d.batches[i].id in Served(d, now).0.data.files && Served(d, now).0.data.files[d.batches[i].id].deletedAt != 0
  }

  /** A recovered file is gone again exactly if a replayed purge takes its table, wherever the purge stands. */
  lemma GoneIff(d: Disk, now: nat, i: nat)
    requires DistinctIds(d.batches) && i < |d.batches| && Accepts(d.log, d.batches, i) && Served(d, now).1.None?
    ensures d.batches[i].id in Served(d, now).0.data.files
    ensures Gone(d, now, i) <==> exists p: nat :: TakenBy(d.log, p, d.batches[i].key.table)
  {
    var s, b := Started(d, now), d.batches[i].id;
    StartedFiles(d, now);
    assert i in Accepted(d.log, d.batches, |d.batches|);
    SurvivesIff(s, d.log, |d.log|, now, b);
    assert s.data.files[b].table == d.batches[i].key.table;
    forall p: nat ensures Takes(s, d.log, p, d.batches[i].key.table) <==> TakenBy(d.log, p, d.batches[i].key.table) {
    }
  }

  /** The rows that the purges were not meant for: the start takes away only rows that a purge of their table follows if
      and only if, in every accepted batch of a table that a purge takes, a purge follows every row. */
  lemma OnlyPurgedRowsGoneIff(d: Disk, now: nat)
    requires DistinctIds(d.batches) && Served(d, now).1.None?
    ensures (forall i: nat, q | i < |d.batches| && Accepts(d.log, d.batches, i) && Gone(d, now, i)
            && q in FileRows(d.log, d.batches[i]) ::
               Followed(d.log, q, d.batches[i].key.table))
            <==>
            (forall i: nat, q, p: nat | i < |d.batches| && Accepts(d.log, d.batches, i)
                && q in FileRows(d.log, d.batches[i]) && TakenBy(d.log, p, d.batches[i].key.table) ::
                Followed(d.log, q, d.batches[i].key.table))
  {
    forall i: nat | i < |d.batches| && Accepts(d.log, d.batches, i)
      ensures Gone(d, now, i) <==> exists p: nat :: TakenBy(d.log, p, d.batches[i].key.table)
    {
      GoneIff(d, now, i);
    }
  }

  // ---------------------------------------------------------------- a DELETE behind a purge

  lemma {:induction false} MeaningfulSpec(entries: seq<Dv>, table: string)
    ensures forall e | e in Meaningful(entries, table) :: e.card != 0 && e.table == table
  {
    if entries != [] { MeaningfulSpec(entries[1..], table); }
  }

  /** The position from which on the replay knows the file: 0, or the one after the UPDATE that adds it. */
  function Since(s: State, log: seq<Record>, n: nat, now: nat, b: string): nat
    requires n <= |log|
  {
    if n == 0 then 0
    else if b in ReplayTo(s, log, n - 1, now).0.data.files then Since(s, log, n - 1, now, b) else n
  }

  /** A file known at position `n` is gone: it was at the start, or a purge of its table came after it was known. */
  ghost predicate GoneAt(s: State, log: seq<Record>, n: nat, now: nat, b: string)
    requires n <= |log| && b in ReplayTo(s, log, n, now).0.data.files
  {
    var m, table := Since(s, log, n, now, b), ReplayTo(s, log, n, now).0.data.files[b].table;
    || (b in s.data.files && s.data.files[b].deletedAt != 0)
    || TakenBetween(s, log, m, n, table)
  }

  ghost predicate TakenBetween(s: State, log: seq<Record>, m: nat, n: nat, table: string) {
    exists p: nat :: m <= p < n && Takes(s, log, p, table)
  }

  lemma TakenBetweenNext(s: State, log: seq<Record>, m: nat, n: nat, table: string)
    requires m <= n
    ensures TakenBetween(s, log, m, n + 1, table) <==> TakenBetween(s, log, m, n, table) || Takes(s, log, n, table)
  {
    if p: nat :| m <= p < n + 1 && Takes(s, log, p, table) { assert p == n || TakenBetween(s, log, m, n, table); }
  }

  ghost predicate PurgesKnown(s: State, t: State, log: seq<Record>, n: nat)
    requires n <= |log|
  {
    forall i ::
      i in t.purged <==>
      i in s.purged || exists p: nat :: p < n && Replayed(log, p) && log[p].Purged? && log[p].purgeId == i
  }

  lemma {:induction false} PurgesRemembered(s: State, log: seq<Record>, n: nat, now: nat)
    requires n <= |log| && ReplayTo(s, log, n, now).1.None?
    ensures PurgesKnown(s, ReplayTo(s, log, n, now).0, log, n)
    decreases n
  {
    if n > 0 {
      PurgesRemembered(s, log, n - 1, now);
      if Replayed(log, n - 1) { ApplyRemembers(ReplayTo(s, log, n - 1, now).0, log[n - 1], now); }
    }
  }

  lemma ApplyRemembers(s: State, r: Record, now: nat)
    requires Statement(r) && Apply(s, r, now).1.None?
    ensures Apply(s, r, now).0.purged.Keys == s.purged.Keys + if r.Purged? then {r.purgeId} else {}
  {
  }

  lemma TakesNow(s: State, log: seq<Record>, n: nat, now: nat, table: string)
    requires n < |log| && ReplayTo(s, log, n, now).1.None?
    ensures Takes(s, log, n, table) <==>
            Replayed(log, n) && log[n].Purged? && log[n].table == table
                && log[n].purgeId !in ReplayTo(s, log, n, now).0.purged
  {
    PurgesRemembered(s, log, n, now);
  }

  /** A file that one record brings is live. */
  lemma NewIsLive(s: State, r: Record, now: nat, b: string)
    requires Statement(r) && b !in s.data.files && b in Apply(s, r, now).0.data.files
    ensures Apply(s, r, now).0.data.files[b].deletedAt == 0
  {
    if r.Updated? {
      var files := FreshFiles(s.data.files, OfTable(r.files, r.table));
      FreshFilesSpec(s.data.files, OfTable(r.files, r.table));
      AddedIsLive(s.data, files, FreshDvs(s.data.dvs, Meaningful(r.entries, r.table)), b);
    }
  }

  lemma AddedIsLive(d: Data, files: seq<File>, dvs: seq<Dv>, b: string)
    requires Live(files) && b !in d.files
    ensures var e := DataUpdate(d, files, dvs); b in e.files ==> e.files[b].deletedAt == 0
  {
    AddFilesSpec(d.files, files, d.snapshot + 1);
  }

  lemma {:induction false} GoneAtIff(s: State, log: seq<Record>, n: nat, now: nat, b: string)
    requires n <= |log| && ReplayTo(s, log, n, now).1.None? && b in ReplayTo(s, log, n, now).0.data.files
    ensures ReplayTo(s, log, n, now).0.data.files[b].deletedAt != 0 <==> GoneAt(s, log, n, now, b)
    ensures b in s.data.files ==> Since(s, log, n, now, b) == 0
    decreases n
  {
    if n > 0 {
      var t := ReplayTo(s, log, n - 1, now).0;
      if b in t.data.files {
        GoneAtIff(s, log, n - 1, now, b);
        KnownBefore(s, log, n, now, b);
        OneMoreGone(s, log, n, now, b);
      } else {
        NewIsLive(t, log[n - 1], now, b);
        if b in s.data.files { StillKnown(s, log, n - 1, now, b); }
      }
    }
  }

  lemma {:induction false} StillKnown(s: State, log: seq<Record>, n: nat, now: nat, b: string)
    requires n <= |log| && b in s.data.files
    ensures b in ReplayTo(s, log, n, now).0.data.files
    decreases n
  {
    if n > 0 {
      StillKnown(s, log, n - 1, now, b);
      var t := ReplayTo(s, log, n - 1, now).0;
      if Replayed(log, n - 1) && !log[n - 1].Purged? { ApplyKeepsFiles(t, log[n - 1], now, b); }
    }
  }

  /** One more record, for a file that was known before it. */
  lemma KnownBefore(s: State, log: seq<Record>, n: nat, now: nat, b: string)
    requires 0 < n <= |log| && ReplayTo(s, log, n, now).1.None? && b in ReplayTo(s, log, n - 1, now).0.data.files
    ensures var t, u := ReplayTo(s, log, n - 1, now).0, ReplayTo(s, log, n, now).0;
            && b in u.data.files && u.data.files[b].table == t.data.files[b].table
            && (u.data.files[b].deletedAt != 0
                <==> t.data.files[b].deletedAt != 0 || Takes(s, log, n - 1, t.data.files[b].table))
  {
    var t := ReplayTo(s, log, n - 1, now).0;
    TakesNow(s, log, n - 1, now, t.data.files[b].table);
    if Replayed(log, n - 1) {
      if log[n - 1].Purged? { ApplyPurges(t, log[n - 1], now, b); } else { ApplyKeepsFiles(t, log[n - 1], now, b); }
    }
  }

  lemma OneMoreGone(s: State, log: seq<Record>, n: nat, now: nat, b: string)
    requires 0 < n <= |log|
    requires var t, u := ReplayTo(s, log, n - 1, now).0, ReplayTo(s, log, n, now).0;
             b in t.data.files && b in u.data.files && u.data.files[b].table == t.data.files[b].table
    ensures GoneAt(s, log, n, now, b) <==>
            GoneAt(s, log, n - 1, now, b)
            || Takes(s, log, n - 1, ReplayTo(s, log, n, now).0.data.files[b].table)
  {
    SinceBound(s, log, n - 1, now, b);
    TakenBetweenNext(s, log, Since(s, log, n, now, b), n - 1, ReplayTo(s, log, n, now).0.data.files[b].table);
  }

  lemma {:induction false} SinceBound(s: State, log: seq<Record>, n: nat, now: nat, b: string)
    requires n <= |log|
    ensures Since(s, log, n, now, b) <= n
    decreases n
  {
    if n > 0 { SinceBound(s, log, n - 1, now, b); }
  }

  /** A replayed DELETE stops the start exactly if one of its entries is incomplete, or is anchored at a file that is
      known and gone: a purge was applied to files written after it, and the DELETE finds its anchor dead. */
  lemma DeleteStopsIff(s: State, log: seq<Record>, n: nat, now: nat)
    requires n < |log| && ReplayTo(s, log, n, now).1.None? && Replayed(log, n) && log[n].Deleted?
    ensures var entries, files := Meaningful(log[n].entries, log[n].table), ReplayTo(s, log, n, now).0.data.files;
            ReplayTo(s, log, n + 1, now).1.Some? <==>
            exists e :: e in entries && (e.dvId == "" || e.path == "" || e.table == ""
                                         || (e.batchId in files && GoneAt(s, log, n, now, e.batchId)))
  {
    var entries, t := Meaningful(log[n].entries, log[n].table), ReplayTo(s, log, n, now).0;
    MeaningfulSpec(log[n].entries, log[n].table);
    Replay.RefusalSpec(t.data.files, entries);
    forall e | e in entries && e.batchId in t.data.files ensures AnchorDead(t.data.files, e)
        <==> GoneAt(s, log, n, now, e.batchId) {
      GoneAtIff(s, log, n, now, e.batchId);
    }
    assert ReplayTo(s, log, n + 1, now) == Apply(t, log[n], now);
  }
}

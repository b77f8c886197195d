/** Exporting the catalog as a message of lists and rebuilding it strictly from such a message. */
module SnapshotMsg {
  import opened Common
  import opened CatalogModel
  import opened CatalogOps
  import opened Evolution
  import opened TaskDirectory
  import opened TaskFidelity

  const FORMAT_VERSION: nat := 4

  type Listed<K, V> = seq<(K, Option<V>)>

  /** Entries whose key is stored inside the value are sent as plain values. */
  datatype Message = Message(
    formatVersion: nat, revision: nat, lastApplied: nat, schemaVer: nat, manifestVer: nat,
    namespaces: seq<string>,
    tables: Listed<string, Table>,
    schemas: Listed<(string, nat), SchemaVersion>,
    files: Listed<string, File>,
    idem: Listed<string, Idem>,
    datanodes: seq<Datanode>,
    leases: seq<Lease>,
    inFlight: seq<(string, nat)>,
    tableVer: seq<(string, nat)>,
    deletions: Listed<string, Dv>,
    purges: seq<(string, nat)>)

  // ---------------------------------------------------------------- export

  /** The entries of a map in some order; nothing below depends on which. */
  ghost function Entries<K, V>(m: map<K, V>): seq<(K, V)>
    decreases m.Keys
  {
    if m == map[] then [] else
      var k :| k in m;
      [(k, m[k])] + Entries(m - {k})
  }

  function Present<K, V>(list: seq<(K, V)>): Listed<K, V> {
    seq(|list|, i requires 0 <= i < |list| => (list[i].0, Some(list[i].1)))
  }

  function Values<K, V>(list: seq<(K, V)>): seq<V> {
    seq(|list|, i requires 0 <= i < |list| => list[i].1)
  }

  function Keys<K, V>(list: seq<(K, V)>): seq<K> {
    seq(|list|, i requires 0 <= i < |list| => list[i].0)
  }

  function ById(list: seq<((string, string), Dv)>): Listed<string, Dv> {
    seq(|list|, i requires 0 <= i < |list| => (list[i].0.0, Some(list[i].1)))
  }

  ghost function ToMessage(s: State): Message {
    Message(
      FORMAT_VERSION, s.data.snapshot, s.ver.lastApplied, s.ver.schemaVer, s.ver.manifestVer,
      Keys(Entries(map n | n in s.registry.namespaces :: ())),
      Present(Entries(s.registry.tables)), Present(Entries(s.registry.schemas)), Present(Entries(s.data.files)),
      Present(Entries(s.idem)), Values(Entries(s.registry.datanodes)), Values(Entries(s.leases)),
      Entries(s.inFlight), Entries(s.ver.tableVer), ById(Entries(s.data.dvs)), Entries(s.purged))
  }

  // ---------------------------------------------------------------- import

  /** Inserts the entries in order. A missing value or a repeated key refuses the whole list. */
  function Collect<K(==), V>(list: Listed<K, V>, acc: map<K, V>): Result<map<K, V>>
    decreases |list|
  {
    if list == [] then Ok(acc)
    else if list[0].1.None? || list[0].0 in acc then Err(InvalidState)
    else Collect(list[1..], acc[list[0].0 := list[0].1.value])
  }

  method ReadList<K(==), V>(list: Listed<K, V>) returns (r: Result<map<K, V>>)
    ensures r == Collect(list, map[])
  {
    var acc: map<K, V> := map[];
    for i := 0 to |list|
      invariant Collect(list, map[]) == Collect(list[i..], acc)
    {
      if list[i].1.None? || list[i].0 in acc { return Err(InvalidState); }
      acc := acc[list[i].0 := list[i].1.value];
      assert list[i..][1..] == list[i + 1..];
    }
    return Ok(acc);
  }

  function NamespaceEntries(list: seq<string>): Listed<string, ()> {
    seq(|list|, i requires 0 <= i < |list| => (list[i], Some(())))
  }

  function DatanodeEntries(list: seq<Datanode>): Listed<string, Datanode> {
    seq(|list|, i requires 0 <= i < |list| => (list[i].instanceId, Some(list[i])))
  }

  function LeaseEntries(list: seq<Lease>): Listed<string, Lease> {
    seq(|list|, i requires 0 <= i < |list| => (list[i].purpose, Some(list[i])))
  }

  /** A vector must carry the identifier it is listed under. */
  function DvEntry(e: (string, Option<Dv>)): ((string, string), Option<Dv>) {
    if e.1.Some? && e.1.value.dvId == e.0 then (e.1.value.Key(), e.1) else ((e.0, ""), None)
  }

  function DvEntries(list: Listed<string, Dv>): Listed<(string, string), Dv> {
    seq(|list|, i requires 0 <= i < |list| => DvEntry(list[i]))
  }

  function PurgeEntries(list: seq<(string, nat)>): Listed<string, nat> {
    seq(|list|, i requires 0 <= i < |list| => (list[i].0, if list[i].0 == "" then None else Some(list[i].1)))
  }

  function ReadRegistry(m: Message): Result<Registry> {
    var namespaces, tables := Collect(NamespaceEntries(m.namespaces), map[]), Collect(m.tables, map[]);
    var schemas, datanodes := Collect(m.schemas, map[]), Collect(DatanodeEntries(m.datanodes), map[]);
    if namespaces.Ok? && tables.Ok? && schemas.Ok? && datanodes.Ok?
    then Ok(Registry(tables.value, namespaces.value.Keys, schemas.value, datanodes.value))
    else Err(InvalidState)
  }

  function ReadData(m: Message): Result<Data> {
    var files, dvs := Collect(m.files, map[]), Collect(DvEntries(m.deletions), map[]);
    if files.Ok? && dvs.Ok? then Ok(Data(files.value, dvs.value, m.revision)) else Err(InvalidState)
  }

  function ReadCounters(m: Message): Result<Counters> {
    var tableVer := Collect(Present(m.tableVer), map[]);
    if tableVer.Ok? then Ok(Counters(m.lastApplied, m.schemaVer, m.manifestVer, tableVer.value)) else Err(InvalidState)
  }

  function ReadState(m: Message): Result<State> {
    var data, registry, ver := ReadData(m), ReadRegistry(m), ReadCounters(m);
    var idem, purged := Collect(m.idem, map[]), Collect(PurgeEntries(m.purges), map[]);
    var leases, inFlight := Collect(LeaseEntries(m.leases), map[]), Collect(Present(m.inFlight), map[]);
    if data.Ok? && registry.Ok? && ver.Ok? && idem.Ok? && purged.Ok? && leases.Ok? && inFlight.Ok?
    then Ok(State(data.value, registry.value, idem.value, purged.value, leases.value, inFlight.value, ver.value))
    else Err(InvalidState)
  }

  ghost function FromMessage(m: Message): Result<Catalog> {
    if m.formatVersion != FORMAT_VERSION then Err(UnsupportedVersion)
    else if m.revision == 0 || DEFAULT_SCHEMA !in m.namespaces then Err(InvalidState)
    else match ReadState(m)
      case Err(e) => Err(e)
      case Ok(s) => Ok(Catalog(s, Rebuilt(s.data)))
  }

  // ---------------------------------------------------------------- which lists are accepted

  /** A list is accepted exactly when every value is there and no key repeats, and then nothing is lost. */
  lemma {:induction false} CollectIff<K, V>(list: Listed<K, V>, acc: map<K, V>)
    ensures Collect(list, acc).Ok? <==>
              (forall i | 0 <= i < |list| :: list[i].1.Some? && list[i].0 !in acc)
              && (forall i, j | 0 <= i < j < |list| :: list[i].0 != list[j].0)
    ensures Collect(list, acc).Ok? ==>
              var m := Collect(list, acc).value;
              && (forall i | 0 <= i < |list| :: list[i].0 in m && Some(m[list[i].0]) == list[i].1)
              && (forall k | k in acc :: k in m && m[k] == acc[k])
              && (forall k | k in m :: k in acc || exists i :: 0 <= i < |list| && list[i].0 == k)
    decreases |list|
  {
    if list != [] && list[0].1.Some? && list[0].0 !in acc {
      var rest := list[1..];
      CollectIff(rest, acc[list[0].0 := list[0].1.value]);
      assert forall i | 0 < i < |list| :: list[i] == rest[i - 1];
      if Collect(list, acc).Ok? {
        var m := Collect(list, acc).value;
        forall k | k in m ensures k in acc || exists i :: 0 <= i < |list| && list[i].0 == k {
          if k !in acc && k != list[0].0 {
            var i :| 0 <= i < |rest| && rest[i].0 == k;
            assert list[i + 1].0 == k;
          }
        }
      }
    }
  }

  ghost predicate Complete<K, V>(list: Listed<K, V>) {
    (forall i | 0 <= i < |list| :: list[i].1.Some?) && (forall i, j | 0 <= i < j < |list| :: list[i].0 != list[j].0)
  }

  /** What the strict reader asks of the lists of tables, schemas, namespaces and datanodes. */
  ghost predicate CompleteRegistry(m: Message) {
    && NoRepeat(m.namespaces) && Complete(m.tables) && Complete(m.schemas)
    && forall i, j | 0 <= i < j < |m.datanodes| :: m.datanodes[i].instanceId != m.datanodes[j].instanceId
  }

  /** Files are complete, and each vector is listed under its own identifier and once per path. */
  ghost predicate CompleteData(m: Message) {
    && Complete(m.files)
    && (forall i | 0 <= i < |m.deletions| :: m.deletions[i].1.Some? && m.deletions[i].1.value.dvId == m.deletions[i].0)
    && (forall i, j | 0 <= i < j < |m.deletions| ::
          m.deletions[i].0 != m.deletions[j].0 || m.deletions[i].1.value.path != m.deletions[j].1.value.path)
  }

  ghost predicate CompleteRest(m: Message) {
    && Complete(m.idem)
    && (forall i, j | 0 <= i < j < |m.leases| :: m.leases[i].purpose != m.leases[j].purpose)
    && (forall i, j | 0 <= i < j < |m.inFlight| :: m.inFlight[i].0 != m.inFlight[j].0)
    && (forall i, j | 0 <= i < j < |m.tableVer| :: m.tableVer[i].0 != m.tableVer[j].0)
    && (forall i | 0 <= i < |m.purges| :: m.purges[i].0 != "")
    && (forall i, j | 0 <= i < j < |m.purges| :: m.purges[i].0 != m.purges[j].0)
  }

  lemma NamespacesAcceptedIff(list: seq<string>)
    ensures Collect(NamespaceEntries(list), map[]).Ok? <==> NoRepeat(list)
  {
    var l := NamespaceEntries(list);
    CollectIff(l, map[]);
    assert forall i | 0 <= i < |list| :: l[i] == (list[i], Some(()));
  }

  lemma DatanodesAcceptedIff(list: seq<Datanode>)
    ensures Collect(DatanodeEntries(list), map[]).Ok?
            <==> forall i, j | 0 <= i < j < |list| :: list[i].instanceId != list[j].instanceId
  {
    var l := DatanodeEntries(list);
    CollectIff(l, map[]);
    assert forall i | 0 <= i < |list| :: l[i] == (list[i].instanceId, Some(list[i]));
  }

  lemma LeasesAcceptedIff(list: seq<Lease>)
    ensures Collect(LeaseEntries(list), map[]).Ok?
            <==> forall i, j | 0 <= i < j < |list| :: list[i].purpose != list[j].purpose
  {
    var l := LeaseEntries(list);
    CollectIff(l, map[]);
    assert forall i | 0 <= i < |list| :: l[i] == (list[i].purpose, Some(list[i]));
  }

  lemma PairsAcceptedIff(list: seq<(string, nat)>)
    ensures Collect(Present(list), map[]).Ok? <==> forall i, j | 0 <= i < j < |list| :: list[i].0 != list[j].0
  {
    var l := Present(list);
    CollectIff(l, map[]);
    assert forall i | 0 <= i < |list| :: l[i] == (list[i].0, Some(list[i].1));
  }

  lemma PurgesAcceptedIff(list: seq<(string, nat)>)
    ensures Collect(PurgeEntries(list), map[]).Ok? <==>
              (forall i | 0 <= i < |list| :: list[i].0 != "")
              && forall i, j | 0 <= i < j < |list| :: list[i].0 != list[j].0
  {
    var l := PurgeEntries(list);
    CollectIff(l, map[]);
    assert forall i | 0 <= i < |list| :: l[i].0 == list[i].0 && (l[i].1.Some? <==> list[i].0 != "");
  }

  lemma DvsAcceptedIff(list: Listed<string, Dv>)
    ensures Collect(DvEntries(list), map[]).Ok? <==>
              (forall i | 0 <= i < |list| :: list[i].1.Some? && list[i].1.value.dvId == list[i].0)
              && forall i, j | 0 <= i < j < |list| ::
                   list[i].0 != list[j].0 || list[i].1.value.path != list[j].1.value.path
  {
    var l := DvEntries(list);
    CollectIff(l, map[]);
    assert forall i | 0 <= i < |list| :: l[i] == DvEntry(list[i]);
    assert forall i | 0 <= i < |list| :: l[i].1.Some? <==> list[i].1.Some? && list[i].1.value.dvId == list[i].0;
    if forall i | 0 <= i < |list| :: list[i].1.Some? && list[i].1.value.dvId == list[i].0 {
      assert forall i | 0 <= i < |list| :: l[i].0 == (list[i].0, list[i].1.value.path);
    }
  }

  lemma RegistryAcceptedIff(m: Message)
    ensures ReadRegistry(m).Ok? <==> CompleteRegistry(m)
  {
    NamespacesAcceptedIff(m.namespaces);
    CollectIff(m.tables, map[]);
    CollectIff(m.schemas, map[]);
    DatanodesAcceptedIff(m.datanodes);
  }

  lemma DataAcceptedIff(m: Message)
    ensures ReadData(m).Ok? <==> CompleteData(m)
  {
    CollectIff(m.files, map[]);
    DvsAcceptedIff(m.deletions);
  }

  lemma RestAcceptedIff(m: Message)
    ensures Collect(m.idem, map[]).Ok? && Collect(PurgeEntries(m.purges), map[]).Ok? && ReadCounters(m).Ok?
            && Collect(LeaseEntries(m.leases), map[]).Ok? && Collect(Present(m.inFlight), map[]).Ok?
            <==> CompleteRest(m)
  {
    CollectIff(m.idem, map[]);
    PurgesAcceptedIff(m.purges);
    PairsAcceptedIff(m.tableVer);
    LeasesAcceptedIff(m.leases);
    PairsAcceptedIff(m.inFlight);
  }

  /** A message is restored exactly when it passes every check; nothing ambiguous is ever guessed. */
  lemma AcceptedIff(m: Message)
    ensures FromMessage(m).Ok? <==>
              && m.formatVersion == FORMAT_VERSION && m.revision > 0 && DEFAULT_SCHEMA in m.namespaces
              && CompleteRegistry(m) && CompleteData(m) && CompleteRest(m)
  {
    RegistryAcceptedIff(m);
    DataAcceptedIff(m);
    RestAcceptedIff(m);
  }

  // ---------------------------------------------------------------- the round trip

  lemma {:induction false} EntriesSpec<K, V>(m: map<K, V>)
    ensures Lists(Entries(m), m)
    decreases m.Keys
  {
    if m != map[] {
      var k :| k in m && Entries(m) == [(k, m[k])] + Entries(m - {k});
      var rest := Entries(m - {k});
      EntriesSpec(m - {k});
      OneMoreEntry(m - {k}, rest, k, m[k]);
      assert (m - {k})[k := m[k]] == m;
    }
  }

  ghost predicate Lists<K, V>(list: seq<(K, V)>, m: map<K, V>) {
    && (forall i | 0 <= i < |list| :: list[i].0 in m && list[i].1 == m[list[i].0])
    && (forall k | k in m :: exists i :: 0 <= i < |list| && list[i].0 == k)
    && (forall i, j | 0 <= i < j < |list| :: list[i].0 != list[j].0)
  }

  lemma OneMoreEntry<K, V>(m: map<K, V>, list: seq<(K, V)>, k: K, v: V)
    requires Lists(list, m) && k !in m
    ensures Lists([(k, v)] + list, m[k := v])
  {
    var more := [(k, v)] + list;
    assert more[0].0 == k;
    var n := m[k := v];
    forall x | x in n ensures exists i :: 0 <= i < |more| && more[i].0 == x {
      if x != k {
        var i :| 0 <= i < |list| && list[i].0 == x;
        assert more[i + 1].0 == x;
      }
    }
  }

  lemma CollectPresent<K, V>(m: map<K, V>)
    ensures Collect(Present(Entries(m)), map[]) == Ok(m)
  {
    EntriesSpec(m);
    CollectsAll(Entries(m), m);
    SameContent(Entries(m), m, Collect(Present(Entries(m)), map[]).value);
  }

  lemma CollectsAll<K, V>(list: seq<(K, V)>, m: map<K, V>)
    requires Lists(list, m)
    ensures Collect(Present(list), map[]).Ok?
    ensures var r := Collect(Present(list), map[]).value;
            && (forall i | 0 <= i < |list| :: list[i].0 in r && r[list[i].0] == list[i].1)
            && (forall k | k in r :: exists i :: 0 <= i < |list| && list[i].0 == k)
  {
    var all := Present(list);
    assert forall i | 0 <= i < |list| :: all[i] == (list[i].0, Some(list[i].1));
    CollectIff(all, map[]);
    var r := Collect(all, map[]).value;
    forall i | 0 <= i < |list| ensures list[i].0 in r && r[list[i].0] == list[i].1 {
      assert all[i].0 in r && Some(r[all[i].0]) == all[i].1;
    }
    forall k | k in r ensures exists i :: 0 <= i < |list| && list[i].0 == k {
      var i :| 0 <= i < |all| && all[i].0 == k;
      assert list[i].0 == k;
    }
  }

  /** A map that holds the entries of a list, and no other, is the one the list was made from. */
  lemma SameContent<K, V>(list: seq<(K, V)>, m: map<K, V>, r: map<K, V>)
    requires Lists(list, m)
    requires forall i | 0 <= i < |list| :: list[i].0 in r && r[list[i].0] == list[i].1
    requires forall k | k in r :: exists i :: 0 <= i < |list| && list[i].0 == k
    ensures r == m
  {
    forall k | k in m ensures k in r && r[k] == m[k] {
      var i :| 0 <= i < |list| && list[i].0 == k;
    }
  }

  lemma NamespacesReturn(namespaces: set<string>)
    ensures var sent := Keys(Entries(map n | n in namespaces :: ()));
            && NamespaceEntries(sent) == Present(Entries(map n | n in namespaces :: ()))
            && forall n | n in namespaces :: n in sent
  {
    var m := map n | n in namespaces :: ();
    EntriesSpec(m);
    assert NamespaceEntries(Keys(Entries(m))) == Present(Entries(m));
    forall n | n in namespaces ensures n in Keys(Entries(m)) {
      assert n in m;
      var i :| 0 <= i < |Entries(m)| && Entries(m)[i].0 == n;
      assert Keys(Entries(m))[i] == n;
    }
  }

  lemma DatanodesReturn(m: map<string, Datanode>)
    requires forall i | i in m :: m[i].instanceId == i
    ensures DatanodeEntries(Values(Entries(m))) == Present(Entries(m))
  {
    EntriesSpec(m);
  }

  lemma LeasesReturn(m: map<string, Lease>)
    requires ValidLeases(m)
    ensures LeaseEntries(Values(Entries(m))) == Present(Entries(m))
  {
    EntriesSpec(m);
  }

  lemma DvsReturn(m: map<(string, string), Dv>)
    requires forall k | k in m :: m[k].Key() == k
    ensures DvEntries(ById(Entries(m))) == Present(Entries(m))
  {
    EntriesSpec(m);
  }

  lemma PurgesReturn(m: map<string, nat>)
    requires forall i | i in m :: i != ""
    ensures PurgeEntries(Entries(m)) == Present(Entries(m))
  {
    EntriesSpec(m);
  }

  lemma RegistryReturns(s: State)
    requires ValidRegistry(s.registry)
    ensures ReadRegistry(ToMessage(s)) == Ok(s.registry)
    ensures DEFAULT_SCHEMA in ToMessage(s).namespaces
  {
    NamespacesReturn(s.registry.namespaces);
    DatanodesReturn(s.registry.datanodes);
    CollectPresent(map n | n in s.registry.namespaces :: ());
    CollectPresent(s.registry.tables);
    CollectPresent(s.registry.schemas);
    CollectPresent(s.registry.datanodes);
    assert (map n | n in s.registry.namespaces :: ()).Keys == s.registry.namespaces;
  }

  lemma DataReturns(s: State)
    requires ValidData(s.data)
    ensures ReadData(ToMessage(s)) == Ok(s.data)
  {
    DvsReturn(s.data.dvs);
    CollectPresent(s.data.files);
    CollectPresent(s.data.dvs);
  }

  lemma CountersReturn(s: State)
    ensures ReadCounters(ToMessage(s)) == Ok(s.ver)
  {
    CollectPresent(s.ver.tableVer);
  }

  lemma StateReturns(s: State)
    requires Valid(s)
    ensures ReadState(ToMessage(s)) == Ok(s)
  {
    RegistryReturns(s);
    DataReturns(s);
    CountersReturn(s);
    LeasesReturn(s.leases);
    PurgesReturn(s.purged);
    CollectPresent(s.idem);
    CollectPresent(s.leases);
    CollectPresent(s.inFlight);
    CollectPresent(s.purged);
  }

  /** Restoring an exported state passes every check and gives the same state, with the task directory rebuilt. */
  lemma RoundTrip(s: State)
    requires Valid(s)
    ensures FromMessage(ToMessage(s)) == Ok(Catalog(s, Rebuilt(s.data)))
  {
    StateReturns(s);
    RegistryReturns(s);
  }

  /** Every reachable state can be exported and restored. */
  lemma ReachableRoundTrip(ops: seq<Op>)
    requires forall op | op in ops :: WellFormed(op)
    ensures var s := Run(Initial(), ops);
            FromMessage(ToMessage(s)) == Ok(Catalog(s, Rebuilt(s.data)))
  {
    InitialValid();
    RunValid(Initial(), ops);
    RoundTrip(Run(Initial(), ops));
  }

  /** A restored catalog and the original go on alike: equal states after any operations, and, while
      the operations keep the directory faithful, the same tasks up to their recorded age. */
  lemma RestoredRunsAlike(c: Catalog, later: seq<Op>)
    requires Valid(c.state) && Clean(c.state.data) && Faithful(c.tasks, c.state.data) && DisciplinedRun(c.state, later)
    ensures var restored := FromMessage(ToMessage(c.state));
            && restored.Ok?
            && FullRun(restored.value, later).state == FullRun(c, later).state
            && SameTasks(FullRun(restored.value, later).tasks, FullRun(c, later).tasks)
  {
    RoundTrip(c.state);
    var r := Catalog(c.state, Rebuilt(c.state.data));
    RebuiltIsFaithful(c.state.data);
    RunFaithful(c, later);
    RunFaithful(r, later);
    FaithfulIsRebuilt(FullRun(c, later).tasks, Run(c.state, later).data);
    FaithfulIsRebuilt(FullRun(r, later).tasks, Run(c.state, later).data);
  }
}

/** What each operation does to the present: the files and deletion vectors a reader gets at the newest snapshot,
    compared with what it got just before. Together with isolation of the earlier snapshots this is all a reader
    sees. */
module CurrentView {
  import opened CatalogModel
  import opened CatalogOps
  import opened Evolution

  function FilesNow(d: Data, table: string): map<string, File> {
    VisibleFiles(d, table, d.snapshot)
  }

  function DvsNow(d: Data, table: string): map<(string, string), Dv> {
    ActiveDvs(d, table, d.snapshot)
  }

  /** No deletion vector is revoked as of a snapshot still to come. */
  ghost predicate NoneAhead(d: Data) {
    ValidData(d) && forall k | k in d.dvs :: d.dvs[k].revokedAt <= d.snapshot
  }

  lemma CommitShows(s: State, req: CommitRequest, now: nat, table: string)
    requires NoneAhead(s.data) && CommitAccepted(s, req) && |req.files| == 1 && req.files[0].deletedAt == 0
    ensures var e := CommitFiles(s, req, now).0.data;
            && FilesNow(e, table) == (if table == req.table
                 then FilesNow(s.data, table)[req.batchId := req.Stamp(req.files[0], e.snapshot)]
                     else FilesNow(s.data, table))
            && DvsNow(e, table) == DvsNow(s.data, table)
  {
    var e := CommitFiles(s, req, now).0.data;
    SameFilesNow(s.data, e, table, {req.batchId});
    SameDvsNow(s.data, e, table, {});
  }

  /** Outside `changed`, entries that stay as they are are seen as before: none of them starts or ends between the
      snapshots. */
  lemma SameFilesNow(d: Data, e: Data, table: string, changed: set<string>)
    requires ValidData(d) && d.snapshot <= e.snapshot
    requires forall b | b !in changed :: (b in d.files <==> b in e.files) && (b in d.files ==> e.files[b] == d.files[b])
    ensures forall b | b !in changed :: b in FilesNow(e, table) <==> b in FilesNow(d, table)
    ensures forall b | b !in changed && b in FilesNow(d, table) :: FilesNow(e, table)[b] == FilesNow(d, table)[b]
  {
  }

  lemma SameDvsNow(d: Data, e: Data, table: string, changed: set<(string, string)>)
    requires NoneAhead(d) && d.snapshot <= e.snapshot
    requires forall k | k !in changed :: (k in d.dvs <==> k in e.dvs) && (k in d.dvs ==> e.dvs[k] == d.dvs[k])
    ensures forall k | k !in changed :: k in DvsNow(e, table) <==> k in DvsNow(d, table)
    ensures forall k | k !in changed && k in DvsNow(d, table) :: DvsNow(e, table)[k] == DvsNow(d, table)[k]
  {
  }

  /** A purge under a new identifier leaves the table without files, and the files of other tables alone. */
  lemma PurgeEmpties(s: State, table: string, purgeId: string, other: string)
    requires ValidData(s.data) && purgeId != "" && purgeId !in s.purged
    ensures FilesNow(PurgeTable(s, table, purgeId).0.data, other)
            == if other == table then map[] else FilesNow(s.data, other)
  {
    if Victims(s.data.files, table) != {} {
      SameFilesNow(s.data, DataPurge(s.data, table), other, Victims(s.data.files, table));
    } else if other == table {
      NoVictims(s.data, table);
    }
  }

  lemma NoVictims(d: Data, table: string)
    requires ValidData(d) && Victims(d.files, table) == {}
    ensures FilesNow(d, table) == map[]
  {
    forall b | b in d.files && d.files[b].table == table ensures d.files[b].deletedAt != 0 {
      assert b !in Victims(d.files, table);
    }
  }

  /** Its vectors go too, unless there was no file to remove. */
  lemma PurgeEmptiesVectors(s: State, table: string, purgeId: string, other: string)
    requires NoneAhead(s.data) && purgeId != "" && purgeId !in s.purged
    ensures DvsNow(PurgeTable(s, table, purgeId).0.data, other)
            == if other == table && Victims(s.data.files, table) != {} then map[] else DvsNow(s.data, other)
  {
    if Victims(s.data.files, table) != {} {
      SameDvsNow(s.data, DataPurge(s.data, table), other, LiveDvsOfTable(s.data.dvs, table));
    }
  }

  lemma DropShardRemoves(s: State, key: ShardKey, table: string)
    requires NoneAhead(s.data)
    ensures var e := DropShard(s, key).0.data;
            && FilesNow(e, table) == (map b | b in FilesNow(s.data, table)
                && !(table == key.table && s.data.files[b].shard == key.shard)
                                           :: s.data.files[b])
            && DvsNow(e, table) == DvsNow(s.data, table)
  {
    var e := DropShard(s, key).0.data;
    SameFilesNow(s.data, e, table, LiveFilesOfShard(s.data.files, key));
    SameDvsNow(s.data, e, table, {});
  }

  /** The new vectors of `table` are those of `e` under keys not in `d`. */
  function NewDvs(d: Data, e: Data, table: string): set<(string, string)> {
    set k | k in e.dvs && k !in d.dvs && e.dvs[k].table == table
  }

  /** New vectors take effect at once; no file changes, and what was active stays active. */
  lemma AddedVectorsShow(d: Data, added: seq<Dv>, table: string)
    requires NoneAhead(d) && forall a | a in added :: a.Key() !in d.dvs
    ensures var e := DataAddDvs(d, added);
            && e.dvs.Keys == d.dvs.Keys + DvKeys(added)
            && FilesNow(e, table) == FilesNow(d, table)
            && DvsNow(e, table).Keys == DvsNow(d, table).Keys + NewDvs(d, e, table)
  {
    var e := DataAddDvs(d, added);
    AddedVectorsKeepFiles(d, added, table);
    forall k ensures k in DvsNow(e, table) <==> k in DvsNow(d, table) || k in NewDvs(d, e, table) {
      AddedVectorAt(d, added, table, k);
    }
  }

  lemma AddedVectorsKeepFiles(d: Data, added: seq<Dv>, table: string)
    requires ValidData(d)
    ensures var e := DataAddDvs(d, added);
            e.dvs.Keys == d.dvs.Keys + DvKeys(added) && FilesNow(e, table) == FilesNow(d, table)
  {
    AddDvsSpec(d.dvs, added, d.snapshot + 1);
    SameFilesNow(d, DataAddDvs(d, added), table, {});
  }

  lemma AddedVectorAt(d: Data, added: seq<Dv>, table: string, k: (string, string))
    requires NoneAhead(d) && forall a | a in added :: a.Key() !in d.dvs
    ensures var e := DataAddDvs(d, added); k in DvsNow(e, table) <==> k in DvsNow(d, table) || k in NewDvs(d, e, table)
  {
    if k in DvKeys(added) { NewVectorActive(d, added, k); } else { OldVectorKept(d, added, k); }
  }

  lemma OldVectorKept(d: Data, added: seq<Dv>, k: (string, string))
    requires k !in DvKeys(added)
    ensures var e := DataAddDvs(d, added); (k in d.dvs <==> k in e.dvs) && (k in d.dvs ==> e.dvs[k] == d.dvs[k])
  {
    AddDvsSpec(d.dvs, added, d.snapshot + 1);
  }

  lemma NewVectorActive(d: Data, added: seq<Dv>, k: (string, string))
    requires k in DvKeys(added)
    ensures var e := DataAddDvs(d, added); k in e.dvs && e.dvs[k].ActiveAt(e.snapshot)
  {
    var next := d.snapshot + 1;
    AddDvsSpec(d.dvs, added, next);
    var v :| v in added && v.Key() == k && AddDvs(d.dvs, added, next)[k] == StampDv(v, next);
  }

  /** An accepted deletion makes exactly the entries that were not known active; all its entries are known
      afterwards. */
  lemma DeletionsShow(s: State, entries: seq<Dv>, table: string)
    requires NoneAhead(s.data) && ApplyDeletions(s, entries).1.Ok?
    ensures var e := ApplyDeletions(s, entries).0.data;
            && FilesNow(e, table) == FilesNow(s.data, table)
            && DvsNow(e, table).Keys == DvsNow(s.data, table).Keys
                 + NewDvs(s.data, e, table)
            && e.dvs.Keys == s.data.dvs.Keys + DvKeys(entries)
  {
    var added := FreshDvs(s.data.dvs, entries);
    FreshKeys(s.data.dvs, entries);
    if added != [] {
      AddedVectorsShow(s.data, added, table);
    } else {
      assert DvKeys(added) == {};
      forall k | k in DvKeys(entries) ensures k in s.data.dvs {
        assert k in s.data.dvs || k in DvKeys(added);
      }
    }
  }

  lemma FreshKeys(dvs: map<(string, string), Dv>, entries: seq<Dv>)
    ensures DvKeys(FreshDvs(dvs, entries)) == DvKeys(entries) - dvs.Keys
    ensures forall a | a in FreshDvs(dvs, entries) :: a.Key() !in dvs
  {
    FreshDvsSpec(dvs, entries);
  }
}

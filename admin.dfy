/** vcf_admin.py: the checks and repairs the admin tool runs over the store
    once `check_and_select_db` has found the database. */
module Admin {
  import opened Strings
  import opened VcfTypes
  import opened Merge
  import opened Store

  /** What a command answers, and the database it leaves. */
  datatype Reply<T> = Reply(result: Result<T>, db: Db)

  // ---------------------------------------------------------------------------
  // check_collection_name (vcf_admin.py:410-414)
  // ---------------------------------------------------------------------------

  function CheckCollectionName(c: string): (r: Option<Exc>)
    ensures r.None? <==> MatchesNamePattern(c) && !StartsWith(c, "__")
    ensures r.Some? ==> r.value.BadCollection?
  {
    if !MatchesNamePattern(c) then Some(BadCollection(BadCollectionName))
    else if StartsWith(c, "__") then Some(BadCollection(ReservedName))
    else None
  }

  /** An accepted name is never the metadata table's. */
  lemma AcceptedNotMetaTable(c: string)
    requires CheckCollectionName(c).None?
    ensures c != MetaTable && c !in TableList(Db(map[], map[]))
  {
    assert MetaTable[..2] == "__";
  }

  /** Python's `$` matches before a final newline, so a valid name followed
      by one newline is accepted too. */
  lemma TrailingNewlineAccepted(c: string)
    requires |c| > 0 && AllNameChars(c) && !StartsWith(c, "__")
    ensures CheckCollectionName(c + "\n").None?
  {
    var s := c + "\n";
    assert s[..|s| - 1] == c;
    if |c| >= 2 {
      assert s[..2] == c[..2];
    } else {
      assert s[1] == '\n';
    }
  }

  /** The names `check_collection_name` accepts that the server refuses as
      table names are exactly those ending in the newline `$` lets through. */
  lemma {:induction false} AcceptedServerName(c: string)
    requires CheckCollectionName(c).None?
    ensures |c| > 0 && (ServerName(c) <==> c[|c| - 1] != '\n')
  {
    if !AllNameChars(c) {
      assert !IsNameChar(c[|c| - 1]) && c[|c| - 1] != '-';
    }
  }

  // ---------------------------------------------------------------------------
  // find_spurious_meta_and_tables (vcf_admin.py:416-422)
  // ---------------------------------------------------------------------------

  /** Metadata without a table, and tables without metadata. */
  function BadMeta(db: Db): set<string>
  {
    db.meta.Keys - TableList(db)
  }

  function BadTables(db: Db): set<string>
  {
    TableList(db) - db.meta.Keys
  }

  /** The two sets are disjoint, and together with the collections that have
      both they cover every name the database knows. */
  lemma SpuriousPartition(db: Db)
    ensures BadMeta(db) * BadTables(db) == {}
    ensures BadMeta(db) + BadTables(db) + (db.meta.Keys * TableList(db)) == db.meta.Keys + TableList(db)
    ensures Sentinel(db) ==> MetaTable !in BadMeta(db) + BadTables(db)
  {
  }

  // ---------------------------------------------------------------------------
  // do_check (vcf_admin.py:284-292)
  // ---------------------------------------------------------------------------

  /** The pending job a metadata document reports: `doing_init` first, then a
      non-empty `appending_filenames`. */
  datatype Pending = DoingInit | Appending(files: seq<string>)

  function Marker(m: Meta): Option<Pending>
  {
    if m.doingInit then Some(DoingInit)
    else if m.appending.Some? && |m.appending.value| > 0 then Some(Appending(m.appending.value))
    else None
  }

  /** The pending jobs among the metadata ids `ids` that have a table. */
  function PendingAmong(db: Db, ids: set<string>): map<string, Pending>
  {
    map id | id in ids && id in db.meta && id in TableList(db) && Marker(db.meta[id]).Some? :: Marker(db.meta[id]).value
  }

  function PendingOf(db: Db): map<string, Pending>
  {
    PendingAmong(db, db.meta.Keys)
  }

  /** `do_check` reports a pending job for exactly the metadata documents that
      are not spurious and carry a marker, and reports that marker. */
  lemma PendingOfMeaning(db: Db)
    ensures forall id :: id in PendingOf(db) <==> id in db.meta && id !in BadMeta(db) && Marker(db.meta[id]).Some?
    ensures forall id :: id in PendingOf(db) ==> PendingOf(db)[id] == Marker(db.meta[id]).value
  {
  }

  /** `do_check`: the spurious sets and, for every other metadata document,
      its pending job. */
  method DoCheck(store: Store) returns (badMeta: set<string>, badTables: set<string>, pending: map<string, Pending>)
    ensures badMeta == BadMeta(store.db) && badTables == BadTables(store.db)
    ensures pending == PendingOf(store.db)
  {
    var db := store.db;
    badMeta, badTables := BadMeta(db), BadTables(db);
    pending := map[];
    var todo := db.meta.Keys;
    while todo != {}
      invariant Checked(db, todo, pending)
      decreases |todo|
    {
      var id :| id in todo;
      pending := CheckOne(db, badMeta, pending, id, todo);
      todo := todo - {id};
    }
    assert db.meta.Keys - todo == db.meta.Keys;
  }

  /** The loop has looked at the metadata documents outside `todo`. */
  ghost predicate Checked(db: Db, todo: set<string>, pending: map<string, Pending>)
  {
    todo <= db.meta.Keys && pending == PendingAmong(db, db.meta.Keys - todo)
  }

  /** One turn of the `for m in metadata` loop. */
  method CheckOne(db: Db, badMeta: set<string>, pending: map<string, Pending>, id: string, ghost todo: set<string>)
      returns (p: map<string, Pending>)
    requires badMeta == BadMeta(db) && id in todo && Checked(db, todo, pending)
    ensures Checked(db, todo - {id}, p)
  {
    PendingAmongAdd(db, db.meta.Keys - todo, id);
    assert db.meta.Keys - (todo - {id}) == (db.meta.Keys - todo) + {id};
    p := pending;
    if id !in badMeta {
      var marker := Marker(db.meta[id]);
      if marker.Some? {
        p := pending[id := marker.value];
      }
    }
  }

  lemma PendingAmongAdd(db: Db, done: set<string>, id: string)
    requires id in db.meta
    ensures PendingAmong(db, done + {id}) ==
      if id in TableList(db) && Marker(db.meta[id]).Some? then PendingAmong(db, done)[id := Marker(db.meta[id]).value]
      else PendingAmong(db, done)
  {
  }

  /** A collection whose load left `doing_init` is reported as such, whatever
      its `appending_filenames`. */
  lemma DoingInitFirst(db: Db, c: string)
    requires c in db.meta && c in TableList(db) && db.meta[c].doingInit
    ensures c in PendingOf(db) && PendingOf(db)[c] == DoingInit
  {
  }

  // ---------------------------------------------------------------------------
  // do_fix() (vcf_admin.py:298-309)
  // ---------------------------------------------------------------------------

  /** The database once the spurious metadata and tables are gone. */
  function FixedAll(db: Db): Db
  {
    Db(db.meta - BadMeta(db), db.tables - BadTables(db))
  }

  /** `do_fix()`: delete the spurious metadata documents, then drop the
      spurious tables; answers how many of each. In the model, dropping the
      metadata table itself (only possible without the sentinel) fails, where a
      real server would drop it. */
  method DoFixAll(store: Store) returns (err: Option<Exc>, deleted: nat, dropped: nat)
    modifies store
    ensures err.None? ==>
      (store.db == FixedAll(old(store.db))
       && deleted == |BadMeta(old(store.db))| && dropped == |BadTables(old(store.db))|)
    ensures err.Some? ==>
      (err == Some(OpFailed) && MetaTable in BadTables(old(store.db))
       && store.db.meta == old(store.db).meta - BadMeta(old(store.db)))
    ensures MetaTable !in BadTables(old(store.db)) ==> err.None?
  {
    var badMeta, badTables := BadMeta(store.db), BadTables(store.db);
    if |badMeta| == 0 && |badTables| == 0 {
      assert store.db.meta - badMeta == store.db.meta;
      assert store.db.tables - badTables == store.db.tables;
      return None, 0, 0;
    }
    err := RemoveSpurious(store);
    if err.Some? {
      return err, 0, 0;
    }
    return None, |badMeta|, |badTables|;
  }

  /** The deletes and drops of `do_fix()`. */
  method RemoveSpurious(store: Store) returns (err: Option<Exc>)
    modifies store
    ensures err.None? ==> store.db == FixedAll(old(store.db))
    ensures err.Some? ==>
      (err == Some(OpFailed) && MetaTable in BadTables(old(store.db))
       && store.db.meta == old(store.db).meta - BadMeta(old(store.db)))
    ensures MetaTable !in BadTables(old(store.db)) ==> err.None?
  {
    ghost var db0 := store.db;
    var badMeta, badTables := BadMeta(store.db), BadTables(store.db);
    err := store.Exec(DeleteMeta(badMeta));
    assert store.db == Db(db0.meta - badMeta, db0.tables);
    err := DropAll(store, badTables);
  }

  /** `for table in bad_tables: r.table_drop(table)`. */
  method DropAll(store: Store, names: set<string>) returns (err: Option<Exc>)
    requires names <= store.db.tables.Keys + {MetaTable}
    modifies store
    ensures err.None? ==> store.db == old(store.db).(tables := old(store.db).tables - names)
    ensures err.Some? ==> err == Some(OpFailed) && MetaTable in names && store.db.meta == old(store.db).meta
    ensures MetaTable !in names || MetaTable in old(store.db).tables ==> err.None?
  {
    ghost var db0 := store.db;
    var todo := names;
    while todo != {}
      invariant todo <= names
      invariant store.db == db0.(tables := db0.tables - (names - todo))
      decreases |todo|
    {
      var t :| t in todo;
      err := store.Exec(TableDrop(t));
      if err.Some? {
        return;
      }
      assert db0.tables - (names - todo) - {t} == db0.tables - (names - (todo - {t}));
      todo := todo - {t};
    }
    assert names - todo == names;
    err := None;
  }

  /** Once the sentinel is there, a second `do_fix()` finds nothing: the
      first leaves no spurious metadata and no spurious table. */
  lemma FixAllIdempotent(db: Db)
    requires Sentinel(db)
    ensures BadMeta(FixedAll(db)) == {} && BadTables(FixedAll(db)) == {}
    ensures Sentinel(FixedAll(db))
  {
    var f := FixedAll(db);
    forall id | id in f.meta ensures id in TableList(f) {
      if id != MetaTable {
        assert id in db.tables;
      }
    }
    forall t | t in TableList(f) ensures t in f.meta {
    }
  }

  /** `do_fix()` keeps every collection that has both its table and its
      metadata, with its documents. */
  lemma FixAllKeepsCollections(db: Db, c: string)
    requires c in db.meta && c in db.tables
    ensures c in FixedAll(db).meta && FixedAll(db).meta[c] == db.meta[c]
    ensures c in FixedAll(db).tables && FixedAll(db).tables[c] == db.tables[c]
  {
  }

  // ---------------------------------------------------------------------------
  // do_delete (vcf_admin.py:378-386)
  // ---------------------------------------------------------------------------

  /** `do_delete`: `None` (here `false`) and no change when there is no
      table, else the table dropped, its metadata deleted and `True`. */
  function DeleteSpec(db: Db, c: string): Reply<bool>
  {
    match CheckCollectionName(c)
    case Some(e) => Reply(Err(e), db)
    case None =>
      if c !in TableList(db) then Reply(Ok(false), db)
      else
        var o := Run(db, [TableDrop(c), DeleteMeta({c})]);
        if o.error.Some? then Reply(Err(o.error.value), o.db) else Reply(Ok(true), o.db)
  }

  method DoDelete(store: Store, c: string) returns (r: Result<bool>)
    modifies store
    ensures Reply(r, store.db) == DeleteSpec(old(store.db), c)
  {
    var bad := CheckCollectionName(c);
    if bad.Some? {
      return Err(bad.value);
    }
    if c !in TableList(store.db) {
      return Ok(false);
    }
    AcceptedNotMetaTable(c);
    RunPair(store.db, TableDrop(c), DeleteMeta({c}));
    var err := store.ExecAll([TableDrop(c), DeleteMeta({c})]);
    r := Ok(true);
  }

  /** `do_delete` of a valid name removes exactly the collection's table and
      metadata when the table exists, and otherwise changes nothing, even if
      metadata exists. */
  lemma DeleteEffect(db: Db, c: string)
    requires CheckCollectionName(c).None?
    ensures var r := DeleteSpec(db, c);
      r.result == Ok(c in db.tables)
      && r.db == if c in db.tables then Db(db.meta - {c}, db.tables - {c}) else db
  {
    AcceptedNotMetaTable(c);
    if c in db.tables {
      RunPair(db, TableDrop(c), DeleteMeta({c}));
    }
  }

  // ---------------------------------------------------------------------------
  // do_fix(collection) (vcf_admin.py:314-353)
  // ---------------------------------------------------------------------------

  /** What `do_fix(collection)` answers: `'doing_init'`, the revert's files,
      bad samples and counters, or `None`. */
  datatype Fixed = DeletedInit | Reverted(files: seq<string>, bad: set<string>, deleted: nat, replaced: nat) | NothingToFix

  /** The samples that came from the appended files. */
  function BadSamples(m: Meta, files: set<string>): set<string>
  {
    set s | s in m.samples && m.samples[s] in files
  }

  /** The revert of an interrupted append: the documents, then the metadata. */
  function RevertSpec(db: Db, c: string, files: seq<string>): Reply<Fixed>
    requires c in db.meta
  {
    var fs := set f | f in files;
    var bad := BadSamples(db.meta[c], fs);
    var counts := CountsOf(db, RevertDocs(c, fs, bad));
    var o := Run(db, [RevertDocs(c, fs, bad), RevertMeta(c, fs, bad)]);
    if o.error.Some? then Reply(Err(o.error.value), o.db)
    else Reply(Ok(Reverted(files, bad, counts.deleted, counts.replaced)), o.db)
  }

  function FixOneSpec(db: Db, c: string): Reply<Fixed>
  {
    match CheckCollectionName(c)
    case Some(e) => Reply(Err(e), db)
    case None =>
      if c !in db.meta then Reply(Err(BadCollection(NoSuchCollection)), db)
      else if c !in TableList(db) then Reply(Err(BadCollection(SpuriousCollection)), db)
      else if db.meta[c].doingInit then Reply(Ok(DeletedInit), DeleteSpec(db, c).db)
      else if db.meta[c].appending.Some? && |db.meta[c].appending.value| > 0 then
        RevertSpec(db, c, db.meta[c].appending.value)
      else Reply(Ok(NothingToFix), db)
  }

  method DoFixOne(store: Store, c: string) returns (r: Result<Fixed>)
    modifies store
    ensures Reply(r, store.db) == FixOneSpec(old(store.db), c)
  {
    var bad := CheckCollectionName(c);
    if bad.Some? {
      return Err(bad.value);
    }
    if c !in store.db.meta {
      return Err(BadCollection(NoSuchCollection));
    }
    var meta := store.db.meta[c];
    if c !in TableList(store.db) {
      return Err(BadCollection(SpuriousCollection));
    }
    if meta.doingInit {
      var _ := DoDelete(store, c);
      return Ok(DeletedInit);
    }
    if meta.appending.Some? && |meta.appending.value| > 0 {
      r := Revert(store, c, meta.appending.value);
      return;
    }
    r := Ok(NothingToFix);
  }

  method Revert(store: Store, c: string, files: seq<string>) returns (r: Result<Fixed>)
    requires c in store.db.meta
    modifies store
    ensures Reply(r, store.db) == RevertSpec(old(store.db), c, files)
  {
    ghost var db0 := store.db;
    var fs := set f | f in files;
    var bad := BadSamples(store.db.meta[c], fs);
    var err, counts := store.ExecCounted(RevertDocs(c, fs, bad));
    if err.Some? {
      RunPair(db0, RevertDocs(c, fs, bad), RevertMeta(c, fs, bad));
      return Err(err.value);
    }
    ghost var db1 := store.db;
    err := store.Exec(RevertMeta(c, fs, bad));
    RunPair(db0, RevertDocs(c, fs, bad), RevertMeta(c, fs, bad));
    if err.Some? {
      return Err(err.value);
    }
    r := Ok(Reverted(files, bad, counts.deleted, counts.replaced));
  }

  /** The checks of `do_fix(collection)` change nothing, and without a
      pending marker nothing is done. */
  lemma FixOneChecks(db: Db, c: string)
    ensures var r := FixOneSpec(db, c);
      ((r.result.Err? && r.result.error.BadCollection? && r.db == db)
         <==> (CheckCollectionName(c).Some? || c !in db.meta || c !in TableList(db)))
      && ((r.result == Ok(NothingToFix))
         <==> (r.db == db && CheckCollectionName(c).None? && c in db.meta && c in TableList(db)
               && Marker(db.meta[c]).None?))
  {
    var r := FixOneSpec(db, c);
    if CheckCollectionName(c).None? && c in db.meta && c in TableList(db) {
      AcceptedNotMetaTable(c);
      var m := db.meta[c];
      if m.doingInit {
        DeleteEffect(db, c);
      } else if m.appending.Some? && |m.appending.value| > 0 {
        RevertEffect(db, c, m.appending.value);
      }
    }
  }

  /** The revert of a collection with a table: the documents lose exactly the
      appended files' contributions (and go when nothing else is left), the
      metadata loses the files, their samples and the marker; nothing else
      changes. */
  lemma RevertEffect(db: Db, c: string, files: seq<string>)
    requires c in db.meta && c in db.tables
    ensures var fs := set f | f in files;
      var bad := BadSamples(db.meta[c], fs);
      var r := RevertSpec(db, c, files);
      r.result.Ok? && r.result.value.Reverted? && r.result.value.files == files && r.result.value.bad == bad
      && r.db.meta == db.meta[c := RevertedMeta(db.meta[c], fs, bad)]
      && r.db.tables == db.tables[c := RevertTable(db.tables[c], fs, bad)]
  {
    var fs := set f | f in files;
    var bad := BadSamples(db.meta[c], fs);
    RunPair(db, RevertDocs(c, fs, bad), RevertMeta(c, fs, bad));
  }

  // ---------------------------------------------------------------------------
  // do_copy (vcf_admin.py:357-374)
  // ---------------------------------------------------------------------------

  function CopySpec(db: Db, src: string, dest: string): Reply<nat>
  {
    match CheckCollectionName(src)
    case Some(e) => Reply(Err(e), db)
    case None =>
      match CheckCollectionName(dest)
      case Some(e) => Reply(Err(e), db)
      case None =>
        if !(src in TableList(db) && src in db.meta) then Reply(Err(BadCollection(SourceMissing)), db)
        else if !(dest !in TableList(db) && dest !in db.meta) then Reply(Err(BadCollection(DestinationExists)), db)
        else
          var created := StepOutcome(db, TableCreate(dest));
          if created.error.Some? then Reply(Err(created.error.value), created.db)
          else
            var inserted := CountsOf(created.db, CopyDocs(src, dest)).inserted;
            var o := Run(created.db, [CopyDocs(src, dest), InsertMeta(dest, db.meta[src])]);
            if o.error.Some? then Reply(Err(o.error.value), o.db) else Reply(Ok(inserted), o.db)
  }

  method DoCopy(store: Store, src: string, dest: string) returns (r: Result<nat>)
    modifies store
    ensures Reply(r, store.db) == CopySpec(old(store.db), src, dest)
  {
    var bad := CheckCollectionName(src);
    if bad.Some? {
      return Err(bad.value);
    }
    bad := CheckCollectionName(dest);
    if bad.Some? {
      return Err(bad.value);
    }
    var tables := TableList(store.db);
    if !(src in tables && src in store.db.meta) {
      return Err(BadCollection(SourceMissing));
    }
    var sourceMeta := store.db.meta[src];
    if !(dest !in tables && dest !in store.db.meta) {
      return Err(BadCollection(DestinationExists));
    }
    AcceptedNotMetaTable(src);
    var err := store.Exec(TableCreate(dest));
    if err.Some? {
      return Err(err.value);
    }
    ghost var db1 := store.db;
    RunPair(db1, CopyDocs(src, dest), InsertMeta(dest, sourceMeta));
    var counts;
    err, counts := store.ExecCounted(CopyDocs(src, dest));
    err := store.Exec(InsertMeta(dest, sourceMeta));
    r := Ok(counts.inserted);
  }

  /** A copy between valid names from an existing collection to a new one
      gives the destination the source's documents and metadata, answers
      how many documents there are, and changes nothing else; a destination
      the server refuses (a valid name followed by a newline) makes
      `table_create` raise; a copy that fails changes nothing. */
  lemma CopyEffect(db: Db, src: string, dest: string)
    requires CheckCollectionName(src).None? && CheckCollectionName(dest).None?
    ensures var r := CopySpec(db, src, dest);
      (r.result.Ok? <==> src in db.tables && src in db.meta && dest !in db.tables && dest !in db.meta && ServerName(dest))
      && (r.result.Ok? ==>
            (r.result.value == |db.tables[src]|
             && r.db == Db(db.meta[dest := db.meta[src]], db.tables[dest := db.tables[src]])))
      && (src in db.tables && src in db.meta && dest !in db.tables && dest !in db.meta && !ServerName(dest) ==>
            r.result == Err(BadName))
      && (r.result.Err? ==> r.db == db)
  {
    AcceptedNotMetaTable(src);
    AcceptedNotMetaTable(dest);
    if src in db.tables && src in db.meta && dest !in db.tables && dest !in db.meta && ServerName(dest) {
      var db1 := db.(tables := db.tables[dest := map[]]);
      assert StepOutcome(db, TableCreate(dest)) == Outcome(db1, None);
      CopyIntoEmpty(db1, src, dest);
      RunPair(db1, CopyDocs(src, dest), InsertMeta(dest, db.meta[src]));
      assert db1.tables[dest := db1.tables[src]] == db.tables[dest := db.tables[src]];
    }
  }

  // ---------------------------------------------------------------------------
  // do_list (vcf_admin.py:267-276)
  // ---------------------------------------------------------------------------

  datatype Listing = Collections(names: set<string>) | Metadata(meta: Meta)

  function ListSpec(db: Db, c: Option<string>): (r: Result<Listing>)
    ensures c.None? ==>
      (r.Ok? && r.value.Collections?
       && forall t :: t in r.value.names <==> t in TableList(db) && !StartsWith(t, "__"))
    ensures c.Some? ==>
      ((r.Ok? <==> CheckCollectionName(c.value).None? && c.value in db.meta)
       && (r.Ok? ==> r.value == Metadata(db.meta[c.value])))
  {
    match c
    case None => Ok(Collections(set t | t in TableList(db) && !StartsWith(t, "__")))
    case Some(name) =>
      match CheckCollectionName(name)
      case Some(e) => Err(e)
      case None =>
        if name !in db.meta then Err(BadCollection(NoSuchCollection)) else Ok(Metadata(db.meta[name]))
  }

  /** The collection listing leaves out the metadata table and nothing else
      a collection name can be. */
  lemma ListHidesMetaTable(db: Db)
    ensures MetaTable !in ListSpec(db, None).value.names
    ensures forall t :: t in db.tables && CheckCollectionName(t).None? ==> t in ListSpec(db, None).value.names
  {
    assert MetaTable[..2] == "__";
  }

  // ---------------------------------------------------------------------------
  // check_and_select_db (vcf_admin.py:391-405)
  // ---------------------------------------------------------------------------

  /** `check_and_select_db` over the server's databases by name. */
  function CheckAndSelectDb(name: string, dbs: map<string, Db>): (r: Result<Db>)
    ensures r.Ok? <==> MatchesNamePattern(name) && name in dbs && Sentinel(dbs[name])
    ensures r.Ok? ==> r.value == dbs[name]
    ensures r.Err? ==> r.error.BadDatabase?
  {
    if !MatchesNamePattern(name) then Err(BadDatabase(BadDatabaseName))
    else if name !in dbs then Err(BadDatabase(NoSuchDatabase))
    else if !Sentinel(dbs[name]) then Err(BadDatabase(ForeignDatabase))
    else Ok(dbs[name])
  }
}

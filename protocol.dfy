/** The write protocol of `quick_load` and `append_load` (vcf_import.py):
    what the database looks like after a load that ends, well or badly.
    The loaders' collision checks come before any write, the metadata write
    carries the pending marker, and only a load that runs to the end clears
    it; so a load that changed the database and failed always leaves its
    marker behind for `vcf_admin.py fix` to find. */
module Protocol {
  import opened Strings
  import opened VcfTypes
  import opened VcfHeaders
  import opened Join
  import opened Merge
  import opened Store
  import opened Results
  import opened Importer
  import opened Writes

  // ---------------------------------------------------------------------------
  // quick_load
  // ---------------------------------------------------------------------------

  /** A new collection whose headers parsed: it gets its metadata, which is
      the initial one with `doing_init` set exactly when the load raised. A
      name the server accepts also gets its table, the other tables stay as
      they were, and the load fails exactly when a group cannot be merged or
      the join raised; a load that went through leaves one document per
      merged id. A name the server refuses (`abc` followed by a newline)
      makes `table_create` raise right after the metadata insert. */
  lemma QuickBlocksMarker(db: Db, c: string, files: seq<string>, blocks: seq<HeaderBlock>, merged: Partial<Doc>,
                          end: JoinEnd)
    requires |files| == |blocks| && c !in db.meta && c !in TableList(db)
    ensures var o := QuickBlocks(db, c, files, blocks, merged, end);
      o.db.meta == db.meta[c := InitialMeta(files, blocks).(doingInit := o.error.Some?)]
      && (forall t :: t in db.tables ==> t in o.db.tables && o.db.tables[t] == db.tables[t])
      && (o.error.None? <==> ServerName(c) && merged.failure.None? && end.Done?)
      && (ServerName(c) ==> c in o.db.tables && o.db.tables.Keys == db.tables.Keys + {c})
      && (!ServerName(c) ==> o.db.tables == db.tables && o.error == Some(BadName))
      && (o.error.None? ==> o.db.tables[c].Keys == IdsOf(merged.oks))
  {
    var m := InitialMeta(files, blocks);
    QuickSetup(db, c, m);
    if ServerName(c) {
      assert QuickBlocks(db, c, files, blocks, merged, end) == LoadWith(Db(db.meta[c := m], db.tables[c := map[]]), c, merged, end, false);
      SetupLoad(db, c, m, merged, end);
    } else {
      assert m.(doingInit := true) == m;
    }
  }

  /** The metadata insert and the table creation of `quick_load`: the
      insert always goes through, the creation exactly when the server
      accepts the name. */
  lemma QuickSetup(db: Db, c: string, m: Meta)
    requires c !in db.meta && c !in TableList(db)
    ensures Run(db, [InsertMeta(c, m), TableCreate(c)]) ==
      if ServerName(c) then Outcome(Db(db.meta[c := m], db.tables[c := map[]]), None)
      else Outcome(Db(db.meta[c := m], db.tables), Some(BadName))
  {
    RunPair(db, InsertMeta(c, m), TableCreate(c));
  }

  /** The writes of `quick_load` into its new table, under its metadata `m`
      with `doing_init` set. */
  lemma SetupLoad(db: Db, c: string, m: Meta, merged: Partial<Doc>, end: JoinEnd)
    requires c !in db.meta && c !in TableList(db) && m.doingInit
    ensures var o := LoadWith(Db(db.meta[c := m], db.tables[c := map[]]), c, merged, end, false);
      c in o.db.tables && o.db.tables.Keys == db.tables.Keys + {c}
      && o.db.meta == db.meta[c := m.(doingInit := o.error.Some?)]
      && (forall t :: t in db.tables ==> t in o.db.tables && o.db.tables[t] == db.tables[t])
      && (o.error.None? <==> merged.failure.None? && end.Done?)
      && (o.error.None? ==> o.db.tables[c].Keys == IdsOf(merged.oks))
  {
    var setup := Db(db.meta[c := m], db.tables[c := map[]]);
    LoadWithMarker(setup, c, merged, end, false);
    assert setup.meta[c := m.(doingInit := false)] == db.meta[c := m.(doingInit := false)];
    assert m.(doingInit := true) == m;
  }

  /** A quick load writes nothing unless the headers of every file parse and
      their sample names are distinct; then it ends with the collection's
      metadata in place, and its table exactly when the server accepts the
      name, and it fails exactly when it leaves `doing_init` behind. */
  lemma QuickLoadDetectable(db: Db, c: string, files: seq<string>, contents: seq<seq<string>>)
    requires |contents| == |files| && c !in db.meta && c !in TableList(db)
    ensures var o := QuickLoadSpec(db, c, files, contents);
      (o.db != db ==> InitSpec(contents).Ok?)
      && (InitSpec(contents).Ok? ==>
            c in o.db.meta && (c in o.db.tables <==> ServerName(c)) && (o.db.meta[c].doingInit <==> o.error.Some?))
  {
    if InitSpec(contents).Ok? {
      var blocks := InitSpec(contents).value;
      InitLength(contents);
      QuickBlocksMarker(db, c, files, blocks, MergedAll(files, blocks), JoinOf(blocks).end);
    }
  }

  // ---------------------------------------------------------------------------
  // append_load
  // ---------------------------------------------------------------------------

  /** The collision guards come before any write. */
  lemma AppendBlocksGuards(db: Db, c: string, files: seq<string>, blocks: seq<HeaderBlock>, merged: Partial<Doc>,
                           end: JoinEnd)
    requires |files| == |blocks| && c in db.meta
    ensures var o := AppendBlocks(db, c, files, blocks, merged, end);
      o.db != db ==> NewSamples(blocks) * db.meta[c].samples.Keys == {} && (set f | f in files) * db.meta[c].vcfs.Keys == {}
  {
  }

  /** An append that passed its guards: the metadata gains the files and
      their samples and the marker `appending_filenames`, which stays exactly
      when the load raised; no other metadata and no other table changes, and
      a load that went through leaves the table with the merged ids added. */
  lemma AppendBlocksMarker(db: Db, c: string, files: seq<string>, blocks: seq<HeaderBlock>, merged: Partial<Doc>,
                           end: JoinEnd)
    requires |files| == |blocks| && c in db.meta && c in db.tables
    requires NewSamples(blocks) * db.meta[c].samples.Keys == {} && (set f | f in files) * db.meta[c].vcfs.Keys == {}
    ensures var o := AppendBlocks(db, c, files, blocks, merged, end);
      var m := MergedMeta(db.meta[c], VcfsOf(files, blocks, |blocks|), SampleFilesOf(files, blocks, |blocks|), files);
      o.db.meta == db.meta[c := if o.error.Some? then m else m.(appending := None)]
      && c in o.db.tables && o.db.tables.Keys == db.tables.Keys
      && (forall t :: t in db.tables && t != c ==> o.db.tables[t] == db.tables[t])
      && (o.error.None? ==> merged.failure.None? && end.Done?
                            && o.db.tables[c].Keys == db.tables[c].Keys + IdsOf(merged.oks))
  {
    var meta := StepOutcome(db, AppendMetaOp(c, files, blocks));
    assert meta.error.None? && meta.db.tables == db.tables;
    LoadWithMarker(meta.db, c, merged, end, true);
  }

  /** The guards of an append to an existing collection: a load that changes
      the database found the table and the metadata, no pending marker,
      headers that parse with distinct sample names, and no sample or file
      name already in the collection. */
  lemma AppendGuards(db: Db, c: string, files: seq<string>, contents: seq<seq<string>>)
    requires |contents| == |files| && c in db.meta
    ensures var o := AppendLoadSpec(db, c, files, contents);
      o.db != db ==>
        c in TableList(db) && !db.meta[c].doingInit && db.meta[c].appending.None? && InitSpec(contents).Ok?
        && |InitSpec(contents).value| == |files|
        && NewSamples(InitSpec(contents).value) * db.meta[c].samples.Keys == {}
        && (set f | f in files) * db.meta[c].vcfs.Keys == {}
  {
    if c in TableList(db) && !db.meta[c].doingInit && db.meta[c].appending.None? && InitSpec(contents).Ok? {
      var blocks := InitSpec(contents).value;
      InitLength(contents);
      AppendBlocksGuards(db, c, files, blocks, MergedAll(files, blocks), JoinOf(blocks).end);
    }
  }

  /** An append to an existing collection either changes nothing or leaves
      `appending_filenames` set to its files exactly when it raised. */
  lemma AppendLoadDetectable(db: Db, c: string, files: seq<string>, contents: seq<seq<string>>)
    requires |contents| == |files| && c in db.meta && c != MetaTable
    ensures var o := AppendLoadSpec(db, c, files, contents);
      o.db == db || (c in o.db.meta && (o.db.meta[c].appending == Some(files) <==> o.error.Some?))
  {
    AppendGuards(db, c, files, contents);
    if AppendLoadSpec(db, c, files, contents).db != db {
      var blocks := InitSpec(contents).value;
      AppendBlocksMarker(db, c, files, blocks, MergedAll(files, blocks), JoinOf(blocks).end);
    }
  }

  // ---------------------------------------------------------------------------
  // main
  // ---------------------------------------------------------------------------

  /** Nothing is written unless the database name, the collection name and
      the file names pass their checks, and a new collection is not in the
      database yet. */
  lemma ImportChecksFirst(db: Db, dbName: string, c: string, files: seq<string>, contents: seq<seq<string>>,
                          append: bool)
    requires |contents| == |files|
    ensures var o := ImportSpec(db, dbName, c, files, contents, append);
      o.db != db ==>
        MatchesNamePattern(dbName) && MatchesNamePattern(c) && !StartsWith(c, "__") && PairwiseDistinct(files)
        && (!append ==> c !in TableList(db) && c !in db.meta)
  {
    ImportArgsMeaning(dbName, c, files);
  }
}

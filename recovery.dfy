/** Recovery from an interrupted load (vcf_import.py, vcf_admin.py). A load
    that changed the database and then raised leaves its marker behind;
    `do_check` reports it, and `do_fix(collection)` puts the database back
    as it was before the load: it deletes a half-made collection and it
    reverts a half-done append. */
module Recovery {
  import opened Strings
  import opened VcfTypes
  import opened VcfHeaders
  import opened Join
  import opened Merge
  import opened Store
  import opened Results
  import opened Writes
  import opened Importer
  import opened Protocol
  import opened Admin

  // ---------------------------------------------------------------------------
  // A collection as the loaders leave it
  // ---------------------------------------------------------------------------

  /** A stored document under key `k` of a collection with metadata `m`: keyed
      by its CHROM-POS id with a non-negative POS, from at least one file, and
      with per-file entries for the collection's files and samples of its
      samples only. */
  predicate StoredDoc(d: Doc, k: string, m: Meta)
  {
    d.id == k && d.pos >= 0 && k == DocId(d.chrom, d.pos) && d.ids.Keys != {}
    && d.ids.Keys <= m.vcfs.Keys && d.quals.Keys <= m.vcfs.Keys && d.filters.Keys <= m.vcfs.Keys
    && d.infos.Keys <= m.vcfs.Keys && d.samples.Keys <= m.samples.Keys
  }

  /** The collection has its table and its metadata, every sample belongs to
      one of its files, and every document is a stored document. */
  predicate Consistent(db: Db, c: string)
  {
    c in db.meta && c in db.tables
    && (forall s :: s in db.meta[c].samples ==> db.meta[c].samples[s] in db.meta[c].vcfs)
    && forall k :: k in db.tables[c] ==> StoredDoc(db.tables[c][k], k, db.meta[c])
  }

  /** A document merged from the appended files `fs`, whose samples are among
      `samples`. */
  predicate NewDoc(d: Doc, fs: set<string>, samples: set<string>)
  {
    d.pos >= 0 && d.id == DocId(d.chrom, d.pos) && d.ids.Keys != {} && d.ids.Keys <= fs && d.quals.Keys <= fs
    && d.filters.Keys <= fs && d.infos.Keys <= fs && d.samples.Keys <= samples
  }

  // ---------------------------------------------------------------------------
  // The upserts of an append, and their revert
  // ---------------------------------------------------------------------------

  /** A stored document with nothing from the appended files `fs` nor from the
      samples `bad`. */
  predicate Untouched(d0: Doc, fs: set<string>, bad: set<string>)
  {
    d0.ids.Keys != {} && d0.ids.Keys * fs == {} && d0.quals.Keys * fs == {} && d0.filters.Keys * fs == {}
    && d0.infos.Keys * fs == {} && d0.samples.Keys * bad == {}
  }

  /** The documents of the table before the append. */
  predicate Stored(t0: map<string, Doc>, fs: set<string>, bad: set<string>)
  {
    forall k :: k in t0 ==>
      t0[k].id == k && t0[k].pos >= 0 && k == DocId(t0[k].chrom, t0[k].pos) && Untouched(t0[k], fs, bad)
  }

  /** What the upserts made of the stored document `d0`: either nothing, or a
      document at the same place with the same REF that holds some appended
      file and is `d0` once the appended files and samples are taken out. */
  predicate Overwritten(d0: Doc, d: Doc, fs: set<string>, bad: set<string>)
  {
    d == d0
    || (d.id == d0.id && d.chrom == d0.chrom && d.pos == d0.pos && d.ref == d0.ref && d.ids.Keys * fs != {}
        && d.ids - fs == d0.ids && d.quals - fs == d0.quals && d.filters - fs == d0.filters
        && d.infos - fs == d0.infos && d.samples - bad == d0.samples)
  }

  /** The table `t` after some upserts into the table `t0`: every stored
      document is kept or overwritten, and every other one is new. */
  predicate Appended(t0: map<string, Doc>, t: map<string, Doc>, fs: set<string>, bad: set<string>)
  {
    (forall k :: k in t0 ==> k in t && Overwritten(t0[k], t[k], fs, bad))
    && forall k :: k in t && k !in t0 ==> t[k].id == k && NewDoc(t[k], fs, bad)
  }

  /** Taking out keys that cover the overlay's undoes the overlay. */
  lemma OverlayMinus<V>(a: map<string, V>, b: map<string, V>, s: set<string>)
    requires b.Keys <= s
    ensures (a + b) - s == a - s
  {
    assert ((a + b) - s).Keys == (a - s).Keys;
  }

  lemma OverlayNestedMinus<V>(a: map<string, map<string, V>>, b: map<string, map<string, V>>, s: set<string>)
    requires b.Keys <= s
    ensures OverlayNested(a, b) - s == a - s
  {
    assert (OverlayNested(a, b) - s).Keys == (a - s).Keys;
  }

  /** A new document merged into an overwritten one keeps it overwritten: the
      ids agree, so CHROM and POS do, and the merge adds only appended keys. */
  lemma UpsertOverwrites(d0: Doc, cur: Doc, d: Doc, fs: set<string>, bad: set<string>)
    requires Overwritten(d0, cur, fs, bad) && Untouched(d0, fs, bad) && NewDoc(d, fs, bad)
    requires d.id == d0.id && d0.pos >= 0 && d0.id == DocId(d0.chrom, d0.pos) && cur.ref == d.ref
    ensures Overwritten(d0, MergeDoc(cur, d), fs, bad)
  {
    var m := MergeDoc(cur, d);
    DocIdInjective(d.chrom, d.pos, d0.chrom, d0.pos);
    var f :| f in d.ids.Keys;
    assert f in m.ids.Keys * fs;
    MergeStripped(d0, cur, d, fs, bad);
  }

  /** Taking the appended files and samples out of the merge of a new
      document into an overwritten one leaves the stored document's maps. */
  lemma MergeStripped(d0: Doc, cur: Doc, d: Doc, fs: set<string>, bad: set<string>)
    requires Overwritten(d0, cur, fs, bad) && Untouched(d0, fs, bad) && NewDoc(d, fs, bad)
    ensures var m := MergeDoc(cur, d);
      m.ids - fs == d0.ids && m.quals - fs == d0.quals && m.filters - fs == d0.filters
      && m.infos - fs == d0.infos && m.samples - bad == d0.samples
  {
    if cur == d0 {
      OverlayRemoved(d0.ids, d.ids, fs);
      OverlayRemoved(d0.quals, d.quals, fs);
      OverlayRemoved(d0.filters, d.filters, fs);
      OverlayNestedRemoved(d0.infos, d.infos, fs);
      OverlayNestedRemoved(d0.samples, d.samples, bad);
    } else {
      OverlayMinus(cur.ids, d.ids, fs);
      OverlayMinus(cur.quals, d.quals, fs);
      OverlayMinus(cur.filters, d.filters, fs);
      OverlayNestedMinus(cur.infos, d.infos, fs);
      OverlayNestedMinus(cur.samples, d.samples, bad);
    }
  }

  /** Putting a kept, overwritten or new document under its key keeps the
      table appended. */
  lemma AppendedUpdate(t0: map<string, Doc>, t: map<string, Doc>, k: string, v: Doc, fs: set<string>,
                       bad: set<string>)
    requires Appended(t0, t, fs, bad)
    requires k in t0 ==> Overwritten(t0[k], v, fs, bad)
    requires k !in t0 ==> v.id == k && NewDoc(v, fs, bad)
    ensures Appended(t0, t[k := v], fs, bad)
  {
    var t' := t[k := v];
    forall j | j in t0 ensures j in t' && Overwritten(t0[j], t'[j], fs, bad) {
      if j != k {
        assert t'[j] == t[j];
      }
    }
    forall j | j in t' && j !in t0 ensures t'[j].id == j && NewDoc(t'[j], fs, bad) {
      if j != k {
        assert t'[j] == t[j];
      }
    }
  }

  /** One upsert of a new document keeps the table appended. */
  lemma UpsertKeeps(db: Db, c: string, d: Doc, t0: map<string, Doc>, fs: set<string>, bad: set<string>)
    requires c in db.tables && Appended(t0, db.tables[c], fs, bad) && Stored(t0, fs, bad) && NewDoc(d, fs, bad)
    ensures var o := StepOutcome(db, Upsert(c, d));
      c in o.db.tables && Appended(t0, o.db.tables[c], fs, bad)
  {
    var t := db.tables[c];
    var o := StepOutcome(db, Upsert(c, d));
    if d.id !in t {
      assert o.db.tables[c] == t[d.id := d];
      AppendedUpdate(t0, t, d.id, d, fs, bad);
    } else if t[d.id].ref == d.ref {
      var m := MergeDoc(t[d.id], d);
      assert o.db.tables[c] == t[d.id := m];
      if d.id in t0 {
        assert Overwritten(t0[d.id], t[d.id], fs, bad);
        UpsertOverwrites(t0[d.id], t[d.id], d, fs, bad);
      } else {
        assert NewDoc(t[d.id], fs, bad);
      }
      AppendedUpdate(t0, t, d.id, m, fs, bad);
    } else {
      assert o.db == db;
    }
  }

  /** The upserts of new documents, however far they get, keep the table
      appended. */
  lemma {:induction false} UpsertsKeep(db: Db, c: string, docs: seq<Doc>, t0: map<string, Doc>, fs: set<string>,
                                       bad: set<string>)
    requires c in db.tables && Appended(t0, db.tables[c], fs, bad) && Stored(t0, fs, bad)
    requires forall i :: 0 <= i < |docs| ==> NewDoc(docs[i], fs, bad)
    ensures var o := Run(db, DocOps(c, docs, true));
      c in o.db.tables && Appended(t0, o.db.tables[c], fs, bad)
    decreases |docs|
  {
    if |docs| == 0 {
      assert DocOps(c, docs, true) == [];
    } else {
      var init := docs[..|docs| - 1];
      UpsertsKeep(db, c, init, t0, fs, bad);
      DocOpsSnoc(db, c, docs, true);
      var prev := Run(db, DocOps(c, init, true));
      if prev.error.None? {
        UpsertKeeps(prev.db, c, docs[|docs| - 1], t0, fs, bad);
      }
    }
  }

  /** The revert turns an overwritten document back into the stored one. */
  lemma RevertsTo(d0: Doc, d: Doc, fs: set<string>, bad: set<string>)
    requires Overwritten(d0, d, fs, bad) && Untouched(d0, fs, bad)
    ensures RevertDoc(d, fs, bad) == Some(d0)
  {
    if d == d0 {
      RevertUntouched(d0, fs, bad);
    } else {
      var f :| f in d.ids.Keys * fs;
      var k0 :| k0 in d0.ids.Keys;
      assert k0 !in fs by {
        assert k0 !in d0.ids.Keys * fs;
      }
      assert k0 in d.ids by {
        assert k0 in d.ids - fs;
      }
      RevertMixed(d, f, k0, fs, bad);
    }
  }

  /** The revert of an appended table is the table before the append: the
      overwritten documents go back, the new ones go. */
  lemma AppendedReverts(t0: map<string, Doc>, t: map<string, Doc>, fs: set<string>, bad: set<string>)
    requires Appended(t0, t, fs, bad) && Stored(t0, fs, bad)
    ensures RevertTable(t, fs, bad) == t0
  {
    RevertKeeps(t0, t, fs, bad);
    RevertDrops(t0, t, fs, bad);
    SameEntries(RevertTable(t, fs, bad), t0);
  }

  lemma SameEntries(r: map<string, Doc>, t0: map<string, Doc>)
    requires forall k :: k in t0 ==> k in r && r[k] == t0[k]
    requires forall k :: k in r ==> k in t0
    ensures r == t0
  {
    assert r.Keys == t0.Keys;
  }

  lemma RevertKeeps(t0: map<string, Doc>, t: map<string, Doc>, fs: set<string>, bad: set<string>)
    requires Appended(t0, t, fs, bad) && Stored(t0, fs, bad)
    ensures forall k :: k in t0 ==> k in RevertTable(t, fs, bad) && RevertTable(t, fs, bad)[k] == t0[k]
  {
    forall k | k in t0 ensures k in RevertTable(t, fs, bad) && RevertTable(t, fs, bad)[k] == t0[k] {
      assert k in t && Overwritten(t0[k], t[k], fs, bad) && Untouched(t0[k], fs, bad);
      RevertsTo(t0[k], t[k], fs, bad);
    }
  }

  lemma RevertDrops(t0: map<string, Doc>, t: map<string, Doc>, fs: set<string>, bad: set<string>)
    requires Appended(t0, t, fs, bad)
    ensures forall k :: k in RevertTable(t, fs, bad) ==> k in t0
  {
    forall k | k in t && k !in t0 ensures RevertDoc(t[k], fs, bad).None? {
      assert NewDoc(t[k], fs, bad);
      RevertFresh(t[k], fs, bad);
    }
  }

  /** The tables after the writes and the end of a load are those the document
      writes left: `sync` and the marker's removal touch no table. */
  lemma LoadWithTables(db: Db, c: string, merged: Partial<Doc>, end: JoinEnd, append: bool)
    requires c in db.tables
    ensures LoadWith(db, c, merged, end, append).db.tables == Run(db, DocOps(c, merged.oks, append)).db.tables
  {
    var w := Run(db, DocOps(c, merged.oks, append));
    DocOpsFrame(db, c, merged.oks, append);
    if w.error.None? && merged.failure.None? {
      FinishMarker(w.db, c, end, append);
    }
  }

  // ---------------------------------------------------------------------------
  // The metadata of an append
  // ---------------------------------------------------------------------------

  /** The samples of the appended files are mapped to those files. */
  lemma SampleFilesNew(files: seq<string>, blocks: seq<HeaderBlock>)
    requires |files| == |blocks|
    ensures var sf := SampleFilesOf(files, blocks, |blocks|);
      sf.Keys == NewSamples(blocks) && forall s :: s in sf ==> sf[s] in files
  {
    SampleFilesKeys(files, blocks, |blocks|);
    SampleFilesValues(files, blocks, |blocks|);
    FlattenMembers(Names(blocks), |blocks|);
    assert files[..|blocks|] == files;
  }

  /** With the guards passed, the stored documents hold nothing of the appended
      files and none of the samples the revert takes out, and every new sample
      is one the revert takes out. */
  lemma AppendSeparates(db: Db, c: string, files: seq<string>, blocks: seq<HeaderBlock>)
    requires |files| == |blocks| && Consistent(db, c)
    requires NewSamples(blocks) * db.meta[c].samples.Keys == {} && (set f | f in files) * db.meta[c].vcfs.Keys == {}
    ensures var fs := set f | f in files;
      var m := MergedMeta(db.meta[c], VcfsOf(files, blocks, |blocks|), SampleFilesOf(files, blocks, |blocks|), files);
      Stored(db.tables[c], fs, BadSamples(m, fs)) && NewSamples(blocks) <= BadSamples(m, fs)
  {
    var fs := set f | f in files;
    var m0 := db.meta[c];
    var sf := SampleFilesOf(files, blocks, |blocks|);
    var m := MergedMeta(m0, VcfsOf(files, blocks, |blocks|), sf, files);
    var bad := BadSamples(m, fs);
    SampleFilesNew(files, blocks);
    forall s | s in m0.samples ensures s !in bad {
      assert s !in NewSamples(blocks) * m0.samples.Keys;
      assert m0.samples[s] !in fs * m0.vcfs.Keys;
    }
    forall k | k in db.tables[c] ensures Untouched(db.tables[c][k], fs, bad) {
      var d0 := db.tables[c][k];
      assert StoredDoc(d0, k, m0);
      forall f | f in fs ensures f !in m0.vcfs.Keys {
        assert f !in fs * m0.vcfs.Keys;
      }
    }
  }

  // ---------------------------------------------------------------------------
  // The loads, then do_fix(collection)
  // ---------------------------------------------------------------------------

  /** A quick load that raised after its first write left `doing_init`, which
      `do_check` reports, and `do_fix(collection)` then deletes the collection
      and its metadata: the database is as it was before the load. */
  lemma QuickFailureFixed(db: Db, c: string, files: seq<string>, blocks: seq<HeaderBlock>, merged: Partial<Doc>,
                          end: JoinEnd)
    requires |files| == |blocks| && c !in db.meta && c !in TableList(db) && CheckCollectionName(c).None?
    ensures var o := QuickBlocks(db, c, files, blocks, merged, end);
      o.error.Some? && ServerName(c) ==>
        c in PendingOf(o.db) && PendingOf(o.db)[c] == DoingInit && FixOneSpec(o.db, c) == Reply(Ok(DeletedInit), db)
  {
    var o := QuickBlocks(db, c, files, blocks, merged, end);
    QuickBlocksMarker(db, c, files, blocks, merged, end);
    if o.error.Some? && ServerName(c) {
      DoingInitFirst(o.db, c);
      DeleteEffect(o.db, c);
      assert o.db.meta - {c} == db.meta;
      assert o.db.tables - {c} == db.tables;
    }
  }

  /** A quick load under a name the server refuses raised at
      `table_create`, right after its metadata insert: `do_check` lists that
      metadata as spurious rather than pending, `do_fix(collection)` refuses
      it as a spurious collection and changes nothing, and `do_fix()` finds
      the same spurious tables as before the load and leaves the database it
      would have left before the load. */
  lemma RefusedNameFixed(db: Db, c: string, files: seq<string>, blocks: seq<HeaderBlock>, merged: Partial<Doc>,
                         end: JoinEnd)
    requires |files| == |blocks| && c !in db.meta && c !in TableList(db) && CheckCollectionName(c).None?
    requires !ServerName(c)
    ensures var o := QuickBlocks(db, c, files, blocks, merged, end);
      o.error == Some(BadName) && c in BadMeta(o.db) && c !in PendingOf(o.db)
      && FixOneSpec(o.db, c) == Reply(Err(BadCollection(SpuriousCollection)), o.db)
      && BadTables(o.db) == BadTables(db) && FixedAll(o.db) == FixedAll(db)
  {
    var o := QuickBlocks(db, c, files, blocks, merged, end);
    QuickBlocksMarker(db, c, files, blocks, merged, end);
    PendingOfMeaning(o.db);
    assert o.db.tables == db.tables;
    assert BadMeta(o.db) == BadMeta(db) + {c};
    assert o.db.meta - BadMeta(o.db) == db.meta - BadMeta(db);
  }

  /** An append that raised after its metadata write left
      `appending_filenames`, which `do_check` reports, and `do_fix(collection)`
      then reverts the documents and the metadata to what they were before the
      append. */
  lemma AppendFailureFixed(db: Db, c: string, files: seq<string>, blocks: seq<HeaderBlock>, merged: Partial<Doc>,
                           end: JoinEnd)
    requires |files| == |blocks| && |files| > 0 && Consistent(db, c) && CheckCollectionName(c).None?
    requires !db.meta[c].doingInit && db.meta[c].appending.None?
    requires forall d :: d in merged.oks ==> NewDoc(d, (set f | f in files), NewSamples(blocks))
    ensures var o := AppendBlocks(db, c, files, blocks, merged, end);
      o.error.Some? ==>
        o.db == db
        || (c in PendingOf(o.db) && PendingOf(o.db)[c] == Appending(files)
            && FixOneSpec(o.db, c).result.Ok? && FixOneSpec(o.db, c).db == db)
  {
    var m0 := db.meta[c];
    var fs := set f | f in files;
    if NewSamples(blocks) * m0.samples.Keys == {} && fs * m0.vcfs.Keys == {} {
      var o := AppendBlocks(db, c, files, blocks, merged, end);
      var m := MergedMeta(m0, VcfsOf(files, blocks, |blocks|), SampleFilesOf(files, blocks, |blocks|), files);
      AppendBlocksMarker(db, c, files, blocks, merged, end);
      if o.error.Some? {
        AppendTableReverts(db, c, files, blocks, merged, end);
        AppendMetaReverts(db, c, files, blocks);
        FixReverts(db, o.db, c, m, files);
      }
    }
  }

  /** The metadata part of `AppendFailureFixed`: the revert gives the
      collection's metadata back. */
  lemma AppendMetaReverts(db: Db, c: string, files: seq<string>, blocks: seq<HeaderBlock>)
    requires |files| == |blocks| && Consistent(db, c) && db.meta[c].appending.None?
    requires NewSamples(blocks) * db.meta[c].samples.Keys == {} && (set f | f in files) * db.meta[c].vcfs.Keys == {}
    ensures var fs := set f | f in files;
      var m := MergedMeta(db.meta[c], VcfsOf(files, blocks, |blocks|), SampleFilesOf(files, blocks, |blocks|), files);
      RevertedMeta(m, fs, BadSamples(m, fs)) == db.meta[c]
  {
    VcfsOfKeys(files, blocks, |blocks|);
    SampleFilesNew(files, blocks);
    RevertMergedMeta(db.meta[c], VcfsOf(files, blocks, |blocks|), SampleFilesOf(files, blocks, |blocks|), files);
  }

  /** `do_check` reports an interrupted append with its files. */
  lemma AppendingReported(db: Db, c: string, files: seq<string>)
    requires c in db.meta && c in db.tables && !db.meta[c].doingInit && db.meta[c].appending == Some(files)
    requires |files| > 0
    ensures c in PendingOf(db) && PendingOf(db)[c] == Appending(files)
  {
    PendingOfMeaning(db);
  }

  /** `do_fix(collection)` on a database that differs from `db` only by the
      collection's marked metadata `m` and a table that reverts to the old
      one: the marker is reported, and the fix gives `db` back. */
  lemma FixReverts(db: Db, db1: Db, c: string, m: Meta, files: seq<string>)
    requires CheckCollectionName(c).None? && c in db.meta && c in db.tables
    requires db1.meta == db.meta[c := m] && c in db1.tables && db1.tables.Keys == db.tables.Keys
    requires forall t :: t in db.tables && t != c ==> db1.tables[t] == db.tables[t]
    requires !m.doingInit && m.appending == Some(files) && |files| > 0
    requires var fs := set f | f in files;
      RevertedMeta(m, fs, BadSamples(m, fs)) == db.meta[c] && RevertTable(db1.tables[c], fs, BadSamples(m, fs)) == db.tables[c]
    ensures c in PendingOf(db1) && PendingOf(db1)[c] == Appending(files)
    ensures FixOneSpec(db1, c).result.Ok? && FixOneSpec(db1, c).db == db
  {
    AppendingReported(db1, c, files);
    RevertEffect(db1, c, files);
    PutBack(db, db1, c);
  }

  /** Putting the collection's old metadata and table back into a database
      that differs only there gives the old database. */
  lemma PutBack(db: Db, db1: Db, c: string)
    requires c in db.meta && c in db.tables && c in db1.meta && db1.meta == db.meta[c := db1.meta[c]]
    requires c in db1.tables && db1.tables.Keys == db.tables.Keys
    requires forall t :: t in db.tables && t != c ==> db1.tables[t] == db.tables[t]
    ensures Db(db1.meta[c := db.meta[c]], db1.tables[c := db.tables[c]]) == db
  {
    assert db1.meta[c := db.meta[c]] == db.meta;
    assert db1.tables[c := db.tables[c]] == db.tables;
  }

  /** What the upserts of an append that passed its guards leave in the
      collection's table, however far they get. */
  lemma AppendTableAppended(db: Db, c: string, files: seq<string>, blocks: seq<HeaderBlock>, merged: Partial<Doc>,
                            end: JoinEnd)
    requires |files| == |blocks| && Consistent(db, c)
    requires NewSamples(blocks) * db.meta[c].samples.Keys == {} && (set f | f in files) * db.meta[c].vcfs.Keys == {}
    requires forall d :: d in merged.oks ==> NewDoc(d, (set f | f in files), NewSamples(blocks))
    ensures var o := AppendBlocks(db, c, files, blocks, merged, end);
      var fs := set f | f in files;
      var m := MergedMeta(db.meta[c], VcfsOf(files, blocks, |blocks|), SampleFilesOf(files, blocks, |blocks|), files);
      c in o.db.tables && Appended(db.tables[c], o.db.tables[c], fs, BadSamples(m, fs))
      && Stored(db.tables[c], fs, BadSamples(m, fs))
  {
    var fs := set f | f in files;
    var m := MergedMeta(db.meta[c], VcfsOf(files, blocks, |blocks|), SampleFilesOf(files, blocks, |blocks|), files);
    var bad := BadSamples(m, fs);
    var t0 := db.tables[c];
    AppendSeparates(db, c, files, blocks);
    var meta := StepOutcome(db, AppendMetaOp(c, files, blocks));
    assert meta.error.None? && meta.db.tables == db.tables;
    forall i | 0 <= i < |merged.oks| ensures NewDoc(merged.oks[i], fs, bad) {
      assert merged.oks[i] in merged.oks;
    }
    assert Appended(t0, t0, fs, bad);
    UpsertsKeep(meta.db, c, merged.oks, t0, fs, bad);
    LoadWithTables(meta.db, c, merged, end, true);
  }

  /** The table part of `AppendFailureFixed`: the revert gives the collection's
      table back. */
  lemma AppendTableReverts(db: Db, c: string, files: seq<string>, blocks: seq<HeaderBlock>, merged: Partial<Doc>,
                           end: JoinEnd)
    requires |files| == |blocks| && Consistent(db, c)
    requires NewSamples(blocks) * db.meta[c].samples.Keys == {} && (set f | f in files) * db.meta[c].vcfs.Keys == {}
    requires forall d :: d in merged.oks ==> NewDoc(d, (set f | f in files), NewSamples(blocks))
    ensures var o := AppendBlocks(db, c, files, blocks, merged, end);
      var fs := set f | f in files;
      var m := MergedMeta(db.meta[c], VcfsOf(files, blocks, |blocks|), SampleFilesOf(files, blocks, |blocks|), files);
      c in o.db.tables && RevertTable(o.db.tables[c], fs, BadSamples(m, fs)) == db.tables[c]
  {
    var fs := set f | f in files;
    var m := MergedMeta(db.meta[c], VcfsOf(files, blocks, |blocks|), SampleFilesOf(files, blocks, |blocks|), files);
    AppendTableAppended(db, c, files, blocks, merged, end);
    AppendedReverts(db.tables[c], AppendBlocks(db, c, files, blocks, merged, end).db.tables[c], fs, BadSamples(m, fs));
  }

  // ---------------------------------------------------------------------------
  // The documents of a load
  // ---------------------------------------------------------------------------

  /** A merged document comes from the merged files and holds their samples
      only. */
  lemma MergedDocNew(group: Group, files: seq<string>, blocks: seq<HeaderBlock>)
    requires |files| == |blocks| && Indexed(group, files, Names(blocks)) && MergeSpec(group, files, Names(blocks)).Ok?
    ensures var d := MergeSpec(group, files, Names(blocks)).value;
      d.pos >= 0 ==> NewDoc(d, (set f | f in files), NewSamples(blocks))
  {
    var names := Names(blocks);
    MergeDocument(group, files, names);
    assert files[group[0].0] in FilesOf(group, files, names, |group|);
    FlattenMembers(names, |blocks|);
    forall s | s in NamesOf(group, files, names, |group|) ensures s in NewSamples(blocks) {
      var k, j :| 0 <= k < |group| && 0 <= j < |group[k].1.samples| && j < |names[group[k].0]|
                  && s == names[group[k].0][j];
      assert s in names[group[k].0];
    }
  }

  /** The documents of a load come from its files and hold their samples
      only. */
  lemma MergedDocsNew(files: seq<string>, blocks: seq<HeaderBlock>)
    requires |files| == |blocks|
    ensures forall d :: d in MergedAll(files, blocks).oks && d.pos >= 0 ==>
      NewDoc(d, (set f | f in files), NewSamples(blocks))
  {
    JoinIndexed(blocks, files);
    var groups := JoinOf(blocks).groups;
    var rs := MergeResults(groups, files, Names(blocks));
    var oks := MergedAll(files, blocks).oks;
    FirstsMeaning(rs, |groups|);
    forall d | d in oks && d.pos >= 0 ensures NewDoc(d, (set f | f in files), NewSamples(blocks)) {
      var i :| 0 <= i < |oks| && oks[i] == d;
      assert rs[i] == Ok(d);
      MergedDocNew(groups[i], files, blocks);
    }
  }

  /** Every document merged from the files has a non-negative POS. */
  predicate PositionsNonNegative(files: seq<string>, contents: seq<seq<string>>)
    requires |contents| == |files|
  {
    match InitSpec(contents)
    case Err(_) => true
    case Ok(blocks) =>
      InitLength(contents);
      forall d :: d in MergedAll(files, blocks).oks ==> d.pos >= 0
  }

  // ---------------------------------------------------------------------------
  // vcf_import.py main, then do_fix(collection)
  // ---------------------------------------------------------------------------

  /** What a load may leave behind: a failure that changed nothing, a failure
      that `do_check` reports and `do_fix(collection)` undoes, a failure
      under a name the server refuses whose metadata `do_check` lists as
      spurious and `do_fix()` removes, or a success with the collection in
      place and nothing pending for it. */
  predicate Recoverable(db: Db, c: string, o: Outcome)
  {
    if o.error.Some? then
      o.db == db
      || (c in PendingOf(o.db) && FixOneSpec(o.db, c).result.Ok? && FixOneSpec(o.db, c).db == db)
      || (!ServerName(c) && c in BadMeta(o.db) && BadTables(o.db) == BadTables(db) && FixedAll(o.db) == FixedAll(db))
    else c in o.db.meta && c in o.db.tables && c !in PendingOf(o.db)
  }

  /** A collection without a marker has nothing pending. */
  lemma NothingPending(db: Db, c: string)
    requires c in db.meta && !db.meta[c].doingInit && db.meta[c].appending.None?
    ensures c !in PendingOf(db)
  {
    PendingOfMeaning(db);
  }

  /** `quick_load` of a new collection is recoverable. */
  lemma QuickLoadRecoverable(db: Db, c: string, files: seq<string>, contents: seq<seq<string>>)
    requires |contents| == |files| && c !in db.meta && c !in TableList(db) && CheckCollectionName(c).None?
    ensures Recoverable(db, c, QuickLoadSpec(db, c, files, contents))
  {
    if InitSpec(contents).Ok? {
      var blocks := InitSpec(contents).value;
      InitLength(contents);
      var o := QuickLoadSpec(db, c, files, contents);
      QuickBlocksMarker(db, c, files, blocks, MergedAll(files, blocks), JoinOf(blocks).end);
      QuickFailureFixed(db, c, files, blocks, MergedAll(files, blocks), JoinOf(blocks).end);
      if !ServerName(c) {
        RefusedNameFixed(db, c, files, blocks, MergedAll(files, blocks), JoinOf(blocks).end);
      }
      if o.error.None? {
        NothingPending(o.db, c);
      }
    }
  }

  /** `append_load` into a consistent collection, of files whose documents
      have non-negative positions, is recoverable. */
  lemma AppendLoadRecoverable(db: Db, c: string, files: seq<string>, contents: seq<seq<string>>)
    requires |contents| == |files| && CheckCollectionName(c).None? && PositionsNonNegative(files, contents)
    requires c in db.meta && c in db.tables ==> Consistent(db, c)
    ensures Recoverable(db, c, AppendLoadSpec(db, c, files, contents))
  {
    AcceptedNotMetaTable(c);
    var m0 := if c in db.meta then db.meta[c] else Meta(map[], map[], false, None, None);
    if (c in db.tables) != (c in db.meta) || (c in db.meta && (m0.doingInit || m0.appending.Some?)) {
    } else if c !in db.meta {
      QuickLoadRecoverable(db, c, files, contents);
    } else if InitSpec(contents).Ok? {
      var blocks := InitSpec(contents).value;
      InitLength(contents);
      var merged := MergedAll(files, blocks);
      MergedDocsNew(files, blocks);
      AppendFailureFixed(db, c, files, blocks, merged, JoinOf(blocks).end);
      var o := AppendLoadSpec(db, c, files, contents);
      if o.error.None? {
        AppendBlocksMarker(db, c, files, blocks, merged, JoinOf(blocks).end);
        NothingPending(o.db, c);
      }
    }
  }

  /** The whole import, with `-a` or without, is recoverable: what it leaves
      after a failure is the database it started from, a database that
      `do_check` flags and `do_fix(collection)` restores, or, for a name
      `re.match` accepts but the server refuses, spurious metadata that
      `do_fix()` removes. */
  lemma ImportRecoverable(db: Db, dbName: string, c: string, files: seq<string>, contents: seq<seq<string>>,
                          append: bool)
    requires |contents| == |files| && PositionsNonNegative(files, contents)
    requires c in db.meta && c in db.tables ==> Consistent(db, c)
    ensures Recoverable(db, c, ImportSpec(db, dbName, c, files, contents, append))
  {
    ImportArgsMeaning(dbName, c, files);
    if ImportArgsCheck(dbName, c, files).None? {
      if append {
        AppendLoadRecoverable(db, c, files, contents);
      } else if c !in TableList(db) && c !in db.meta {
        QuickLoadRecoverable(db, c, files, contents);
      }
    }
  }
}

/** The shape the loaders give a collection (vcf_import.py): a load that
    goes through leaves it consistent, so a later append starts from a
    consistent collection and its revert is exact. */
module Consistency {
  import opened Strings
  import opened VcfTypes
  import opened VcfHeaders
  import opened Join
  import opened Merge
  import opened Store
  import opened Results
  import opened Writes
  import opened Importer
  import opened Protocol
  import opened Admin
  import opened Recovery

  // ---------------------------------------------------------------------------
  // quick_load
  // ---------------------------------------------------------------------------

  /** Every document of the table is under its id and new. */
  predicate AllNew(t: map<string, Doc>, fs: set<string>, samples: set<string>)
  {
    forall k :: k in t ==> t[k].id == k && NewDoc(t[k], fs, samples)
  }

  /** One insert of a new document keeps every document new. */
  lemma InsertKeeps(db: Db, c: string, d: Doc, fs: set<string>, samples: set<string>)
    requires c in db.tables && AllNew(db.tables[c], fs, samples) && NewDoc(d, fs, samples)
    ensures var o := StepOutcome(db, Insert(c, d));
      c in o.db.tables && AllNew(o.db.tables[c], fs, samples)
  {
    var t := db.tables[c];
    if d.id !in t {
      var t' := t[d.id := d];
      assert StepOutcome(db, Insert(c, d)).db.tables[c] == t';
      forall k | k in t' ensures t'[k].id == k && NewDoc(t'[k], fs, samples) {
        if k != d.id {
          assert t'[k] == t[k];
        }
      }
    }
  }

  /** The inserts of new documents, however far they get, keep every
      document new. */
  lemma {:induction false} InsertsKeep(db: Db, c: string, docs: seq<Doc>, fs: set<string>, samples: set<string>)
    requires c in db.tables && AllNew(db.tables[c], fs, samples)
    requires forall i :: 0 <= i < |docs| ==> NewDoc(docs[i], fs, samples)
    ensures var o := Run(db, DocOps(c, docs, false));
      c in o.db.tables && AllNew(o.db.tables[c], fs, samples)
    decreases |docs|
  {
    if |docs| == 0 {
      assert DocOps(c, docs, false) == [];
    } else {
      var init := docs[..|docs| - 1];
      InsertsKeep(db, c, init, fs, samples);
      DocOpsSnoc(db, c, docs, false);
      var prev := Run(db, DocOps(c, init, false));
      if prev.error.None? {
        InsertKeeps(prev.db, c, docs[|docs| - 1], fs, samples);
      }
    }
  }

  /** The initial metadata lists the files and their samples, each sample
      under one of the files. */
  lemma InitialMetaShape(files: seq<string>, blocks: seq<HeaderBlock>)
    requires |files| == |blocks|
    ensures var m := InitialMeta(files, blocks);
      m.vcfs.Keys == (set f | f in files) && m.samples.Keys == NewSamples(blocks)
      && forall s :: s in m.samples ==> m.samples[s] in m.vcfs
  {
    VcfsOfKeys(files, blocks, |blocks|);
    SampleFilesNew(files, blocks);
  }

  /** A table of new documents under metadata that lists their files and
      samples is consistent. */
  lemma NewTableConsistent(db: Db, c: string, fs: set<string>, samples: set<string>)
    requires c in db.meta && c in db.tables && AllNew(db.tables[c], fs, samples)
    requires db.meta[c].vcfs.Keys == fs && db.meta[c].samples.Keys == samples
    requires forall s :: s in db.meta[c].samples ==> db.meta[c].samples[s] in db.meta[c].vcfs
    ensures Consistent(db, c)
  {
    forall k | k in db.tables[c] ensures StoredDoc(db.tables[c][k], k, db.meta[c]) {
      assert NewDoc(db.tables[c][k], fs, samples);
    }
  }

  /** A quick load that goes through leaves its new collection consistent. */
  lemma QuickBlocksConsistent(db: Db, c: string, files: seq<string>, blocks: seq<HeaderBlock>, merged: Partial<Doc>,
                              end: JoinEnd)
    requires |files| == |blocks| && c !in db.meta && c !in TableList(db)
    requires forall d :: d in merged.oks ==> NewDoc(d, (set f | f in files), NewSamples(blocks))
    ensures var o := QuickBlocks(db, c, files, blocks, merged, end);
      o.error.None? ==> Consistent(o.db, c)
  {
    var fs := set f | f in files;
    var samples := NewSamples(blocks);
    var m := InitialMeta(files, blocks);
    RunPair(db, InsertMeta(c, m), TableCreate(c));
    var setup := Run(db, [InsertMeta(c, m), TableCreate(c)]);
    if setup.error.None? {
      assert setup.db.tables == db.tables[c := map[]];
      forall i | 0 <= i < |merged.oks| ensures NewDoc(merged.oks[i], fs, samples) {
        assert merged.oks[i] in merged.oks;
      }
      InsertsKeep(setup.db, c, merged.oks, fs, samples);
      LoadWithTables(setup.db, c, merged, end, false);
      QuickBlocksMarker(db, c, files, blocks, merged, end);
      InitialMetaShape(files, blocks);
      var o := QuickBlocks(db, c, files, blocks, merged, end);
      if o.error.None? {
        NewTableConsistent(o.db, c, fs, samples);
      }
    }
  }

  // ---------------------------------------------------------------------------
  // append_load
  // ---------------------------------------------------------------------------

  /** The keys a map had before some keys were taken out. */
  lemma MinusCover<V>(a: map<string, V>, s: set<string>, b: map<string, V>)
    requires a - s == b
    ensures a.Keys <= b.Keys + s
  {
    forall x | x in a && x !in s ensures x in b {
      assert x in a - s;
    }
  }

  /** An overwritten document is stored under metadata that lists the stored
      document's files and samples and the appended ones. */
  lemma OverwrittenStored(d0: Doc, d: Doc, k: string, m0: Meta, m: Meta, fs: set<string>, bad: set<string>)
    requires StoredDoc(d0, k, m0) && Overwritten(d0, d, fs, bad)
    requires m0.vcfs.Keys + fs <= m.vcfs.Keys && m0.samples.Keys + bad <= m.samples.Keys
    ensures StoredDoc(d, k, m)
  {
    if d != d0 {
      var f :| f in d.ids.Keys * fs;
      MinusCover(d.ids, fs, d0.ids);
      MinusCover(d.quals, fs, d0.quals);
      MinusCover(d.filters, fs, d0.filters);
      MinusCover(d.infos, fs, d0.infos);
      MinusCover(d.samples, bad, d0.samples);
    }
  }

  /** An appended table is stored under metadata that lists the stored
      documents' files and samples and the appended ones. */
  lemma AppendedStored(t0: map<string, Doc>, t: map<string, Doc>, m0: Meta, m: Meta, fs: set<string>,
                       bad: set<string>)
    requires forall k :: k in t0 ==> StoredDoc(t0[k], k, m0)
    requires Appended(t0, t, fs, bad)
    requires m0.vcfs.Keys + fs <= m.vcfs.Keys && m0.samples.Keys + bad <= m.samples.Keys
    ensures forall k :: k in t ==> StoredDoc(t[k], k, m)
  {
    forall k | k in t ensures StoredDoc(t[k], k, m) {
      if k in t0 {
        OverwrittenStored(t0[k], t[k], k, m0, m, fs, bad);
      } else {
        assert NewDoc(t[k], fs, bad);
      }
    }
  }

  /** The merged metadata lists the old and the appended files and samples,
      each sample under one of its files. */
  lemma MergedMetaShape(m0: Meta, files: seq<string>, blocks: seq<HeaderBlock>)
    requires |files| == |blocks|
    requires forall s :: s in m0.samples ==> m0.samples[s] in m0.vcfs
    ensures var fs := set f | f in files;
      var m := MergedMeta(m0, VcfsOf(files, blocks, |blocks|), SampleFilesOf(files, blocks, |blocks|), files);
      m0.vcfs.Keys + fs <= m.vcfs.Keys && m0.samples.Keys + BadSamples(m, fs) <= m.samples.Keys
      && forall s :: s in m.samples ==> m.samples[s] in m.vcfs
  {
    VcfsOfKeys(files, blocks, |blocks|);
    SampleFilesNew(files, blocks);
  }

  /** An append that goes through leaves its collection consistent. */
  lemma AppendBlocksConsistent(db: Db, c: string, files: seq<string>, blocks: seq<HeaderBlock>,
                               merged: Partial<Doc>, end: JoinEnd)
    requires |files| == |blocks| && Consistent(db, c)
    requires forall d :: d in merged.oks ==> NewDoc(d, (set f | f in files), NewSamples(blocks))
    ensures var o := AppendBlocks(db, c, files, blocks, merged, end);
      o.error.None? ==> Consistent(o.db, c)
  {
    var m0 := db.meta[c];
    var fs := set f | f in files;
    var o := AppendBlocks(db, c, files, blocks, merged, end);
    if NewSamples(blocks) * m0.samples.Keys == {} && fs * m0.vcfs.Keys == {} && o.error.None? {
      var m := MergedMeta(m0, VcfsOf(files, blocks, |blocks|), SampleFilesOf(files, blocks, |blocks|), files);
      AppendBlocksMarker(db, c, files, blocks, merged, end);
      AppendTableAppended(db, c, files, blocks, merged, end);
      MergedMetaShape(m0, files, blocks);
      assert o.db.meta[c] == m.(appending := None);
      AppendedStored(db.tables[c], o.db.tables[c], m0, m, fs, BadSamples(m, fs));
    }
  }

  // ---------------------------------------------------------------------------
  // vcf_import.py main
  // ---------------------------------------------------------------------------

  /** A quick load of a new collection that goes through leaves it
      consistent. */
  lemma QuickLoadConsistent(db: Db, c: string, files: seq<string>, contents: seq<seq<string>>)
    requires |contents| == |files| && PositionsNonNegative(files, contents) && c !in db.meta && c !in TableList(db)
    ensures var o := QuickLoadSpec(db, c, files, contents);
      o.error.None? ==> Consistent(o.db, c)
  {
    if InitSpec(contents).Ok? {
      var blocks := InitSpec(contents).value;
      InitLength(contents);
      MergedDocsNew(files, blocks);
      QuickBlocksConsistent(db, c, files, blocks, MergedAll(files, blocks), JoinOf(blocks).end);
    }
  }

  /** An append that goes through leaves its collection consistent, when it
      was consistent or absent before. */
  lemma AppendLoadConsistent(db: Db, c: string, files: seq<string>, contents: seq<seq<string>>)
    requires |contents| == |files| && PositionsNonNegative(files, contents) && CheckCollectionName(c).None?
    requires c in db.meta && c in db.tables ==> Consistent(db, c)
    ensures var o := AppendLoadSpec(db, c, files, contents);
      o.error.None? ==> Consistent(o.db, c)
  {
    AcceptedNotMetaTable(c);
    if c !in db.meta && c !in db.tables {
      QuickLoadConsistent(db, c, files, contents);
    } else if c in db.meta && c in db.tables && InitSpec(contents).Ok? {
      var blocks := InitSpec(contents).value;
      InitLength(contents);
      MergedDocsNew(files, blocks);
      AppendBlocksConsistent(db, c, files, blocks, MergedAll(files, blocks), JoinOf(blocks).end);
    }
  }

  /** An import that goes through leaves its collection consistent, when the
      collection was consistent or absent before and the documents of the
      files have non-negative positions. */
  lemma ImportConsistent(db: Db, dbName: string, c: string, files: seq<string>, contents: seq<seq<string>>,
                         append: bool)
    requires |contents| == |files| && PositionsNonNegative(files, contents)
    requires c in db.meta && c in db.tables ==> Consistent(db, c)
    ensures var o := ImportSpec(db, dbName, c, files, contents, append);
      o.error.None? ==> Consistent(o.db, c)
  {
    ImportArgsMeaning(dbName, c, files);
    if ImportArgsCheck(dbName, c, files).None? {
      if append {
        AppendLoadConsistent(db, c, files, contents);
      } else if c !in TableList(db) && c !in db.meta {
        QuickLoadConsistent(db, c, files, contents);
      }
    }
  }
}

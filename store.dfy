/** The RethinkDB database the loader and the admin tool talk to, as a value:
    the documents of the `__METADATA__` table by id, and for every collection
    table its documents by id. Each driver call the scripts make is one `Op`;
    `Step` says what the server does with it. */
module Store {
  import opened Strings
  import opened VcfTypes
  import opened Merge

  /** The metadata table; its sentinel document has the same id. */
  const MetaTable: string := "__METADATA__"
  /** The `application` field of the sentinel document. */
  const Application: string := "vcfthink"

  /** A `__METADATA__` document. A collection's carries `vcfs` (file name to
      headers), `samples` (sample name to file name) and the two pending
      markers `doing_init` and `appending_filenames`; the sentinel's carries
      `application`. */
  datatype Meta = Meta(
    vcfs: map<string, Headers>,
    samples: map<string, string>,
    doingInit: bool,
    appending: Option<seq<string>>,
    application: Option<string>)

  datatype Db = Db(meta: map<string, Meta>, tables: map<string, map<string, Doc>>)

  /** `r.table_list()`: the collection tables and the metadata table. */
  function TableList(db: Db): (names: set<string>)
    ensures MetaTable in names && db.tables.Keys <= names
  {
    db.tables.Keys + {MetaTable}
  }

  /** The table names the server accepts: one or more letters, digits, `_`
      and `-`. A name with a newline, which `check_collection_name` lets
      through, is refused. */
  predicate ServerName(name: string)
  {
    |name| > 0 && forall i :: 0 <= i < |name| ==> IsNameChar(name[i]) || name[i] == '-'
  }

  /** The metadata table holds `{'id': '__METADATA__', 'application': 'vcfthink'}`. */
  predicate Sentinel(db: Db)
  {
    MetaTable in db.meta && db.meta[MetaTable].application == Some(Application)
  }

  /** The driver calls the scripts make. */
  datatype Op =
    | InsertMeta(id: string, m: Meta)                  // r.table('__METADATA__').insert(m)
    | TableCreate(name: string)                        // r.table_create(name)
    | TableDrop(name: string)                          // r.table_drop(name)
    | Insert(table: string, doc: Doc)                  // r.table(t).insert(doc)
    | Sync(table: string)                              // r.table(t).sync()
    | ClearDoingInit(id: string)                       // replace(lambda x: x.without('doing_init'))
    | MergeMeta(id: string, vcfs: map<string, Headers>, samples: map<string, string>, files: seq<string>)
                                                       // update(r.row.merge(collection_info))
    | Upsert(table: string, doc: Doc)                  // replace(branch(row == None, doc, branch(REF ==, merge, error)))
    | ClearAppending(id: string)                       // replace(lambda x: x.without('appending_filenames'))
    | RevertDocs(table: string, appended: set<string>, bad: set<string>)
                                                       // filter(IDs meet files).replace(branch(..., None, literal ...))
    | RevertMeta(id: string, appended: set<string>, bad: set<string>)
                                                       // replace(x.merge(literal ...).without('appending_filenames'))
    | DeleteMeta(ids: set<string>)                     // get_all(*ids).delete()
    | CopyDocs(src: string, dest: string)              // r.table(dest).insert(r.table(src))

  // ---------------------------------------------------------------------------
  // Documents and metadata under the server's merge
  // ---------------------------------------------------------------------------

  /** `r.row.merge(obj)` on an object of objects: inner objects are merged
      key by key, the new value winning; everything else is replaced. */
  function OverlayNested<V>(a: map<string, map<string, V>>, b: map<string, map<string, V>>): (c: map<string, map<string, V>>)
    ensures c.Keys == a.Keys + b.Keys
    ensures forall k :: k in b && k !in a ==> c[k] == b[k]
    ensures forall k :: k in a && k !in b ==> c[k] == a[k]
    ensures forall k :: k in a && k in b ==> c[k] == a[k] + b[k]
  {
    map k | k in a.Keys + b.Keys :: if k in a && k in b then a[k] + b[k] else if k in b then b[k] else a[k]
  }

  /** `r.row.merge(merged_record)`: the scalars of the new document, the per-file
      maps and the sample map merged into the stored ones. */
  function MergeDoc(stored: Doc, d: Doc): (m: Doc)
    ensures m.id == d.id && m.chrom == d.chrom && m.pos == d.pos && m.ref == d.ref
    ensures m.ids.Keys == stored.ids.Keys + d.ids.Keys && m.quals.Keys == stored.quals.Keys + d.quals.Keys
    ensures m.filters.Keys == stored.filters.Keys + d.filters.Keys && m.infos.Keys == stored.infos.Keys + d.infos.Keys
    ensures m.samples.Keys == stored.samples.Keys + d.samples.Keys
  {
    Doc(d.id, d.chrom, d.pos, d.ref, stored.ids + d.ids, stored.quals + d.quals, stored.filters + d.filters,
        OverlayNested(stored.infos, d.infos), OverlayNested(stored.samples, d.samples))
  }

  /** What the revert's `replace` makes of one document: untouched when no
      `IDs` key is an appended file, deleted (`None`) when every key is, and
      otherwise stripped of the appended files and of the bad samples. */
  function RevertDoc(d: Doc, files: set<string>, bad: set<string>): Option<Doc>
  {
    if d.ids.Keys * files == {} then Some(d)
    else if d.ids.Keys <= files then None
    else Some(d.(ids := d.ids - files, quals := d.quals - files, filters := d.filters - files,
                 infos := d.infos - files, samples := d.samples - bad))
  }

  function RevertTable(t: map<string, Doc>, files: set<string>, bad: set<string>): (r: map<string, Doc>)
    ensures r.Keys <= t.Keys
    ensures forall k :: k in t ==> (k in r <==> RevertDoc(t[k], files, bad).Some?)
    ensures forall k :: k in r ==> r[k] == RevertDoc(t[k], files, bad).value
  {
    map k | k in t && RevertDoc(t[k], files, bad).Some? :: RevertDoc(t[k], files, bad).value
  }

  /** `r.row.merge(collection_info)` on a collection's metadata. */
  function MergedMeta(m: Meta, vcfs: map<string, Headers>, samples: map<string, string>, files: seq<string>): Meta
  {
    m.(vcfs := m.vcfs + vcfs, samples := m.samples + samples, appending := Some(files))
  }

  /** The revert's metadata `replace`: the appended files and bad samples go,
      and so does the marker. */
  function RevertedMeta(m: Meta, files: set<string>, bad: set<string>): Meta
  {
    m.(vcfs := m.vcfs - files, samples := m.samples - bad, appending := None)
  }

  // ---------------------------------------------------------------------------
  // The server
  // ---------------------------------------------------------------------------

  /** What the server does with one call. A write that fails for one document
      (an insert of an id already there, a replace or update of a missing
      document) is reported in the result and changes nothing; creating a
      table that exists or using one that does not raises `OpFailed`, and
      creating one under a name the server refuses raises `BadName`. The
      append's upsert reports its `r.error()` and the script exits. The
      `__METADATA__` table is not a collection table here, so dropping it
      or writing collection documents into it fails in the model, where a
      real server would go ahead. */
  function Step(db: Db, op: Op): Result<Db>
  {
    match op
    case InsertMeta(id, m) =>
      Ok(if id in db.meta then db else db.(meta := db.meta[id := m]))
    case TableCreate(name) =>
      if !ServerName(name) then Err(BadName)
      else if name in TableList(db) then Err(OpFailed)
      else Ok(db.(tables := db.tables[name := map[]]))
    case TableDrop(name) =>
      if name !in db.tables then Err(OpFailed) else Ok(db.(tables := db.tables - {name}))
    case Insert(t, d) =>
      if t !in db.tables then Err(OpFailed)
      else if d.id in db.tables[t] then Ok(db)
      else Ok(db.(tables := db.tables[t := db.tables[t][d.id := d]]))
    case Sync(t) =>
      if t !in TableList(db) then Err(OpFailed) else Ok(db)
    case ClearDoingInit(id) =>
      Ok(if id in db.meta then db.(meta := db.meta[id := db.meta[id].(doingInit := false)]) else db)
    case MergeMeta(id, vcfs, samples, files) =>
      Ok(if id in db.meta then db.(meta := db.meta[id := MergedMeta(db.meta[id], vcfs, samples, files)]) else db)
    case Upsert(t, d) =>
      if t !in db.tables then Err(OpFailed)
      else if d.id !in db.tables[t] then Ok(db.(tables := db.tables[t := db.tables[t][d.id := d]]))
      else if db.tables[t][d.id].ref == d.ref then
        Ok(db.(tables := db.tables[t := db.tables[t][d.id := MergeDoc(db.tables[t][d.id], d)]]))
      else Err(Exit(StoredRefMismatch))
    case ClearAppending(id) =>
      Ok(if id in db.meta then db.(meta := db.meta[id := db.meta[id].(appending := None)]) else db)
    case RevertDocs(t, files, bad) =>
      if t !in db.tables then Err(OpFailed)
      else Ok(db.(tables := db.tables[t := RevertTable(db.tables[t], files, bad)]))
    case RevertMeta(id, files, bad) =>
      Ok(if id in db.meta then db.(meta := db.meta[id := RevertedMeta(db.meta[id], files, bad)]) else db)
    case DeleteMeta(ids) =>
      Ok(db.(meta := db.meta - ids))
    case CopyDocs(src, dest) =>
      if src !in db.tables || dest !in db.tables then Err(OpFailed)
      else Ok(db.(tables := db.tables[dest := db.tables[src] + db.tables[dest]]))
  }

  /** The documents a revert deletes and the ones it replaces. */
  function Deleted(t: map<string, Doc>, files: set<string>): set<string>
  {
    set k | k in t && t[k].ids.Keys * files != {} && t[k].ids.Keys <= files
  }

  function Replaced(t: map<string, Doc>, files: set<string>): set<string>
  {
    set k | k in t && t[k].ids.Keys * files != {} && !(t[k].ids.Keys <= files)
  }

  /** The counters of a write's result: `deleted` and `replaced` for a revert,
      `inserted` for a copy. */
  datatype Counts = Counts(deleted: nat, replaced: nat, inserted: nat)

  function CountsOf(db: Db, op: Op): Counts
  {
    match op
    case RevertDocs(t, files, _) =>
      if t in db.tables then Counts(|Deleted(db.tables[t], files)|, |Replaced(db.tables[t], files)|, 0)
      else Counts(0, 0, 0)
    case CopyDocs(src, dest) =>
      if src in db.tables && dest in db.tables then Counts(0, 0, |db.tables[src].Keys - db.tables[dest].Keys|)
      else Counts(0, 0, 0)
    case _ => Counts(0, 0, 0)
  }

  /** The database after a call, and the exception the call raised. */
  datatype Outcome = Outcome(db: Db, error: Option<Exc>)

  function StepOutcome(db: Db, op: Op): Outcome
  {
    match Step(db, op)
    case Ok(d) => Outcome(d, None)
    case Err(e) => Outcome(db, Some(e))
  }

  /** A sequence of calls: the first exception stops the script. */
  function Run(db: Db, ops: seq<Op>): (o: Outcome)
    decreases |ops|
  {
    if |ops| == 0 then Outcome(db, None)
    else
      var prev := Run(db, ops[..|ops| - 1]);
      if prev.error.Some? then prev else StepOutcome(prev.db, ops[|ops| - 1])
  }

  /** The connection: the database the script works on. */
  class Store {
    var db: Db

    constructor(db: Db)
      ensures this.db == db
    {
      this.db := db;
    }

    /** Send one call to the server. */
    method Exec(op: Op) returns (err: Option<Exc>)
      modifies this
      ensures Outcome(db, err) == StepOutcome(old(db), op)
    {
      match Step(db, op)
      case Ok(d) =>
        db, err := d, None;
      case Err(e) =>
        err := Some(e);
    }

    /** Send calls one after the other until one raises. */
    method ExecAll(ops: seq<Op>) returns (err: Option<Exc>)
      modifies this
      ensures Outcome(db, err) == Run(old(db), ops)
    {
      ghost var db0 := db;
      var i := 0;
      while i < |ops|
        invariant i <= |ops|
        invariant Run(db0, ops[..i]) == Outcome(db, None)
      {
        RunSnoc(db0, ops[..i], ops[i]);
        assert ops[..i + 1] == ops[..i] + [ops[i]];
        err := Exec(ops[i]);
        if err.Some? {
          RunStops(db0, ops, i + 1);
          return;
        }
        i := i + 1;
      }
      assert ops[..i] == ops;
      err := None;
    }

    /** Send one call and read the counters of its result. */
    method ExecCounted(op: Op) returns (err: Option<Exc>, counts: Counts)
      modifies this
      ensures Outcome(db, err) == StepOutcome(old(db), op)
      ensures counts == CountsOf(old(db), op)
    {
      counts := CountsOf(db, op);
      err := Exec(op);
    }
  }

  // ---------------------------------------------------------------------------
  // Properties of the server
  // ---------------------------------------------------------------------------

  lemma RunSnoc(db: Db, ops: seq<Op>, op: Op)
    ensures var prev := Run(db, ops);
      Run(db, ops + [op]) == if prev.error.Some? then prev else StepOutcome(prev.db, op)
  {
    assert (ops + [op])[..|ops|] == ops;
  }

  /** Once a prefix of the calls raises, the rest are not sent. */
  lemma {:induction false} RunStops(db: Db, ops: seq<Op>, k: nat)
    requires k <= |ops| && Run(db, ops[..k]).error.Some?
    ensures Run(db, ops) == Run(db, ops[..k])
    decreases |ops| - k
  {
    if k < |ops| {
      RunSnoc(db, ops[..k], ops[k]);
      assert ops[..k + 1] == ops[..k] + [ops[k]];
      RunStops(db, ops, k + 1);
    } else {
      assert ops[..k] == ops;
    }
  }

  /** Running two sequences of calls is running the first, then the second
      from where the first left off unless it raised. */
  lemma {:induction false} RunAppend(db: Db, a: seq<Op>, b: seq<Op>)
    ensures var first := Run(db, a);
      Run(db, a + b) == if first.error.Some? then first else Run(first.db, b)
    decreases |b|
  {
    if |b| == 0 {
      assert a + b == a;
    } else {
      var init := b[..|b| - 1];
      RunAppend(db, a, init);
      assert a + b == (a + init) + [b[|b| - 1]];
      RunSnoc(db, a + init, b[|b| - 1]);
      assert b == init + [b[|b| - 1]];
      RunSnoc(Run(db, a).db, init, b[|b| - 1]);
    }
  }

  /** A call that raises leaves the database as it was. */
  lemma {:induction false} RunFailureKeepsState(db: Db, ops: seq<Op>)
    ensures Run(db, ops).error.Some? ==>
      exists k :: 0 <= k < |ops| && Run(db, ops[..k]).error.None? && Step(Run(db, ops[..k]).db, ops[k]).Err?
        && Run(db, ops) == Outcome(Run(db, ops[..k]).db, Some(Step(Run(db, ops[..k]).db, ops[k]).error))
    decreases |ops|
  {
    if |ops| > 0 {
      var init := ops[..|ops| - 1];
      RunFailureKeepsState(db, init);
      if Run(db, init).error.Some? {
        var k :| 0 <= k < |init| && Run(db, init[..k]).error.None? && Step(Run(db, init[..k]).db, init[k]).Err?
          && Run(db, init) == Outcome(Run(db, init[..k]).db, Some(Step(Run(db, init[..k]).db, init[k]).error));
        assert init[..k] == ops[..k] && init[k] == ops[k];
      } else {
        assert ops[..|ops| - 1] == init;
      }
    }
  }

  lemma RunPair(db: Db, a: Op, b: Op)
    ensures var first := StepOutcome(db, a);
      Run(db, [a, b]) == if first.error.Some? then first else StepOutcome(first.db, b)
  {
    assert [a, b][..1] == [a];
    assert [a][..0] == [];
    assert Run(db, [a]) == StepOutcome(db, a);
  }

  /** Creating a table the database lacks and dropping it again restores the
      database; the pair goes through exactly when the server accepts the
      name, and otherwise the creation raises `BadName` and nothing changes. */
  lemma CreateDropInverse(db: Db, name: string)
    requires name !in TableList(db)
    ensures Run(db, [TableCreate(name), TableDrop(name)]).db == db
    ensures Run(db, [TableCreate(name), TableDrop(name)]).error == if ServerName(name) then None else Some(BadName)
  {
    RunPair(db, TableCreate(name), TableDrop(name));
    if ServerName(name) {
      var db1 := db.(tables := db.tables[name := map[]]);
      assert StepOutcome(db, TableCreate(name)) == Outcome(db1, None);
      assert db1.tables - {name} == db.tables;
    }
  }

  /** Inserting a metadata document under a fresh id and deleting that id
      restores the database. */
  lemma InsertDeleteMetaInverse(db: Db, id: string, m: Meta)
    requires id !in db.meta
    ensures Run(db, [InsertMeta(id, m), DeleteMeta({id})]) == Outcome(db, None)
  {
    RunPair(db, InsertMeta(id, m), DeleteMeta({id}));
    assert db.meta[id := m] - {id} == db.meta;
  }

  /** A document with no appended file is left as it is. */
  lemma RevertUntouched(d: Doc, files: set<string>, bad: set<string>)
    requires d.ids.Keys * files == {}
    ensures RevertDoc(d, files, bad) == Some(d)
  {
  }

  /** A document made only of appended files is deleted. */
  lemma RevertFresh(d: Doc, files: set<string>, bad: set<string>)
    requires d.ids.Keys != {} && d.ids.Keys <= files
    ensures RevertDoc(d, files, bad) == None
  {
    var k :| k in d.ids.Keys;
    assert k in d.ids.Keys * files;
  }

  /** Removing the keys an overlay added gives back a map that had none of them. */
  lemma OverlayRemoved<V>(a: map<string, V>, b: map<string, V>, s: set<string>)
    requires b.Keys <= s && a.Keys * s == {}
    ensures (a + b) - s == a
  {
    var l := (a + b) - s;
    forall k | k in a ensures k !in s {
      assert k !in a.Keys * s;
    }
    assert l.Keys == a.Keys;
  }

  lemma OverlayNestedRemoved<V>(a: map<string, map<string, V>>, b: map<string, map<string, V>>, s: set<string>)
    requires b.Keys <= s && a.Keys * s == {}
    ensures OverlayNested(a, b) - s == a
  {
    var l := OverlayNested(a, b) - s;
    forall k | k in a ensures k !in s && k !in b {
      assert k !in a.Keys * s;
    }
    assert l.Keys == a.Keys;
  }

  /** The revert keeps a merged document whose keys mix old and appended files. */
  lemma RevertMixed(m: Doc, k: string, k0: string, files: set<string>, bad: set<string>)
    requires k in m.ids && k in files && k0 in m.ids && k0 !in files
    ensures RevertDoc(m, files, bad) == Some(m.(ids := m.ids - files, quals := m.quals - files,
      filters := m.filters - files, infos := m.infos - files, samples := m.samples - bad))
  {
    assert k in m.ids.Keys * files;
  }

  /** A stored document whose files are not appended ones, merged with a new
      document whose files all are, goes back to the stored one under the
      revert: the merge and the revert are inverse. */
  lemma RevertMergedDoc(d0: Doc, d: Doc, files: set<string>, bad: set<string>)
    requires d.id == d0.id && d.chrom == d0.chrom && d.pos == d0.pos && d.ref == d0.ref
    requires d0.ids.Keys != {} && d0.ids.Keys * files == {} && d0.quals.Keys * files == {}
    requires d0.filters.Keys * files == {} && d0.infos.Keys * files == {} && d0.samples.Keys * bad == {}
    requires d.ids.Keys != {} && d.ids.Keys <= files && d.quals.Keys <= files && d.filters.Keys <= files
    requires d.infos.Keys <= files && d.samples.Keys <= bad
    ensures RevertDoc(MergeDoc(d0, d), files, bad) == Some(d0)
  {
    var m := MergeDoc(d0, d);
    var k :| k in d.ids.Keys;
    var k0 :| k0 in d0.ids.Keys;
    assert k0 !in files by {
      assert k0 !in d0.ids.Keys * files;
    }
    RevertMixed(m, k, k0, files, bad);
    OverlayRemoved(d0.ids, d.ids, files);
    OverlayRemoved(d0.quals, d.quals, files);
    OverlayRemoved(d0.filters, d.filters, files);
    OverlayNestedRemoved(d0.infos, d.infos, files);
    OverlayNestedRemoved(d0.samples, d.samples, bad);
  }

  /** The metadata merge of an append and the revert's metadata replace are
      inverse, when the appended files and samples are new to the collection
      and its samples all come from its own files. */
  lemma RevertMergedMeta(m: Meta, vcfs: map<string, Headers>, samples: map<string, string>, files: seq<string>)
    requires m.appending.None?
    requires vcfs.Keys <= set f | f in files
    requires m.vcfs.Keys * (set f | f in files) == {} && m.samples.Keys * samples.Keys == {}
    requires forall s :: s in m.samples ==> m.samples[s] in m.vcfs
    requires forall s :: s in samples ==> samples[s] in files
    ensures var merged := MergedMeta(m, vcfs, samples, files);
      var fs := set f | f in files;
      RevertedMeta(merged, fs, set s | s in merged.samples && merged.samples[s] in fs) == m
  {
    var merged := MergedMeta(m, vcfs, samples, files);
    var fs := set f | f in files;
    var bad := set s | s in merged.samples && merged.samples[s] in fs;
    OverlayRemoved(m.vcfs, vcfs, fs);
    forall s | s in m.samples ensures s !in bad {
      assert s !in m.samples.Keys * samples.Keys;
      assert merged.samples[s] == m.samples[s];
      assert m.samples[s] !in m.vcfs.Keys * fs;
    }
    assert samples.Keys <= bad;
    OverlayRemoved(m.samples, samples, bad);
  }

  /** Copying a table into an empty one gives the destination exactly the
      source's documents, and the insert counter their number. */
  lemma CopyIntoEmpty(db: Db, src: string, dest: string)
    requires src in db.tables && dest in db.tables && db.tables[dest] == map[]
    ensures Step(db, CopyDocs(src, dest)) == Ok(db.(tables := db.tables[dest := db.tables[src]]))
    ensures CountsOf(db, CopyDocs(src, dest)).inserted == |db.tables[src]|
  {
    assert db.tables[src] + db.tables[dest] == db.tables[src];
    assert db.tables[src].Keys - db.tables[dest].Keys == db.tables[src].Keys;
  }

  /** Every document a table gains is stored under its own id. */
  predicate KeyedById(db: Db)
  {
    forall t, k :: t in db.tables && k in db.tables[t] ==> db.tables[t][k].id == k
  }

  lemma StepKeepsKeyedById(db: Db, op: Op)
    requires KeyedById(db) && Step(db, op).Ok?
    ensures KeyedById(Step(db, op).value)
  {
    var db' := Step(db, op).value;
    forall t, k | t in db'.tables && k in db'.tables[t] ensures db'.tables[t][k].id == k {
      match op {
        case RevertDocs(t0, files, bad) =>
          if t == t0 {
            assert db'.tables[t][k] == RevertDoc(db.tables[t][k], files, bad).value;
          }
        case CopyDocs(src, dest) =>
          if t == dest {
            if k in db.tables[dest] {
              assert db'.tables[t][k] == db.tables[dest][k];
            } else {
              assert db'.tables[t][k] == db.tables[src][k];
            }
          }
        case _ =>
      }
    }
  }
}

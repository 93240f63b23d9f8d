/** vcf_import.py: the argument checks of `main`, `init_parsers`, and the
    write protocol of `quick_load` and `append_load` over the store. File
    contents are parameters: file `i` is the sequence of its lines. */
module Importer {
  import opened Strings
  import opened VcfTypes
  import opened VcfHeaders
  import opened Records
  import opened Join
  import opened Merge
  import opened Store
  import opened Results
  import opened Writes

  // ---------------------------------------------------------------------------
  // Distinct names
  // ---------------------------------------------------------------------------

  /** `len(xs) == len(set(xs))`. */
  predicate NoRepeats(xs: seq<string>)
  {
    |set x | x in xs| == |xs|
  }

  predicate PairwiseDistinct(xs: seq<string>)
  {
    forall i, j :: 0 <= i < j < |xs| ==> xs[i] != xs[j]
  }

  /** A list has as many distinct elements as it has elements exactly when no
      two of its positions hold the same one. */
  lemma {:induction false} NoRepeatsMeaning(xs: seq<string>)
    ensures |set x | x in xs| <= |xs|
    ensures NoRepeats(xs) <==> PairwiseDistinct(xs)
    decreases |xs|
  {
    if |xs| == 0 {
      assert (set x | x in xs) == {};
    } else {
      var p := xs[..|xs| - 1];
      var last := xs[|xs| - 1];
      NoRepeatsMeaning(p);
      assert xs == p + [last];
      assert (set x | x in xs) == (set x | x in p) + {last};
      PairwiseSnoc(p, last);
      if last in p {
        assert (set x | x in xs) == (set x | x in p);
      } else {
        assert |set x | x in xs| == |set x | x in p| + 1;
      }
    }
  }

  /** Adding an element keeps the elements distinct exactly when it is new. */
  lemma PairwiseSnoc(p: seq<string>, last: string)
    ensures PairwiseDistinct(p + [last]) <==> PairwiseDistinct(p) && last !in p
  {
    var xs := p + [last];
    if PairwiseDistinct(p) && last !in p {
      forall i, j | 0 <= i < j < |xs| ensures xs[i] != xs[j] {
        assert xs[i] == p[i];
        if j < |xs| - 1 {
          assert xs[j] == p[j];
        }
      }
    } else if last in p {
      var i :| 0 <= i < |p| && p[i] == last;
      assert xs[i] == xs[|xs| - 1];
    } else {
      var i, j :| 0 <= i < j < |p| && p[i] == p[j];
      assert xs[i] == xs[j];
    }
  }


  lemma ConcatDistinct(a: seq<string>, b: seq<string>)
    requires PairwiseDistinct(a + b)
    ensures PairwiseDistinct(a) && PairwiseDistinct(b)
    ensures forall s :: s in a ==> s !in b
  {
    forall i, j | 0 <= i < j < |b| ensures b[i] != b[j] {
      assert (a + b)[|a| + i] == b[i] && (a + b)[|a| + j] == b[j];
    }
    forall s | s in a ensures s !in b {
      var i :| 0 <= i < |a| && a[i] == s;
      forall j | 0 <= j < |b| ensures b[j] != s {
        assert (a + b)[i] == a[i] && (a + b)[|a| + j] == b[j];
      }
    }
    assert forall i :: 0 <= i < |a| ==> (a + b)[i] == a[i];
  }

  // ---------------------------------------------------------------------------
  // main: argument checks (vcf_import.py:41-48)
  // ---------------------------------------------------------------------------

  /** The assertions `main` makes on its arguments, in order. */
  function ImportArgsCheck(dbName: string, collection: string, files: seq<string>): Option<Exc>
  {
    if !MatchesNamePattern(dbName) then Some(AssertionError(BadDatabaseName))
    else if !MatchesNamePattern(collection) then Some(AssertionError(BadCollectionName))
    else if StartsWith(collection, "__") then Some(AssertionError(ReservedName))
    else if !NoRepeats(files) then Some(AssertionError(DuplicateFile))
    else None
  }

  /** The arguments pass exactly when both names are `[a-zA-Z0-9_]+`, the
      collection's does not start with `__` and no file is given twice; a
      file given twice is reported once the names are fine. */
  lemma ImportArgsMeaning(dbName: string, collection: string, files: seq<string>)
    ensures ImportArgsCheck(dbName, collection, files).None? <==>
      MatchesNamePattern(dbName) && MatchesNamePattern(collection) && !StartsWith(collection, "__")
      && PairwiseDistinct(files)
    ensures ImportArgsCheck(dbName, collection, files) == Some(AssertionError(DuplicateFile)) <==>
      MatchesNamePattern(dbName) && MatchesNamePattern(collection) && !StartsWith(collection, "__")
      && exists i, j :: 0 <= i < j < |files| && files[i] == files[j]
  {
    NoRepeatsMeaning(files);
  }

  // ---------------------------------------------------------------------------
  // init_parsers (vcf_import.py:126-141, vcf_miniparser.py:434-438)
  // ---------------------------------------------------------------------------

  /** `parse_headers` of each file. */
  function HeaderResults(contents: seq<seq<string>>): (rs: seq<Result<HeaderBlock>>)
    ensures |rs| == |contents| && forall i :: 0 <= i < |contents| ==> rs[i] == ParseHeadersSpec(contents[i])
  {
    seq(|contents|, i requires 0 <= i < |contents| => ParseHeadersSpec(contents[i]))
  }

  /** `parse_headers_together`: a generator over the files, forced by `zip`;
      the first file whose headers fail stops it. */
  method ParseHeadersTogether(contents: seq<seq<string>>) returns (r: Result<seq<HeaderBlock>>)
    ensures r == Collect(Firsts(HeaderResults(contents), |contents|))
  {
    ghost var rs := HeaderResults(contents);
    var blocks: seq<HeaderBlock> := [];
    var i := 0;
    while i < |contents|
      invariant i <= |contents|
      invariant Firsts(rs, i) == Partial(blocks, None)
    {
      var b := ParseHeaders(contents[i]);
      assert rs[i] == b;
      if b.Err? {
        FirstsSticky(rs, i + 1, |contents|);
        return Err(b.error);
      }
      assert Firsts(rs, i + 1) == Partial(blocks + [b.value], None);
      blocks := blocks + [b.value];
      i := i + 1;
    }
    r := Ok(blocks);
  }

  /** Sample names per file. */
  function Names(blocks: seq<HeaderBlock>): (names: seq<seq<string>>)
    ensures |names| == |blocks| && forall i :: 0 <= i < |blocks| ==> names[i] == blocks[i].samples
  {
    seq(|blocks|, i requires 0 <= i < |blocks| => blocks[i].samples)
  }

  /** What each decoder reads: the lines after the `#CHROM` line, and the headers. */
  function Inputs(blocks: seq<HeaderBlock>): (inputs: seq<(seq<string>, Headers)>)
    ensures |inputs| == |blocks| && forall i :: 0 <= i < |blocks| ==> inputs[i] == (blocks[i].rest, blocks[i].headers)
  {
    seq(|blocks|, i requires 0 <= i < |blocks| => (blocks[i].rest, blocks[i].headers))
  }

  /** `[sample for sublist in samples for sample in sublist]` over the first `n` lists. */
  function Flatten(names: seq<seq<string>>, n: nat): seq<string>
    requires n <= |names|
  {
    if n == 0 then [] else Flatten(names, n - 1) + names[n - 1]
  }

  lemma {:induction false} FlattenMembers(names: seq<seq<string>>, n: nat)
    requires n <= |names|
    ensures forall s :: s in Flatten(names, n) <==> exists i :: 0 <= i < n && s in names[i]
  {
    if n > 0 {
      FlattenMembers(names, n - 1);
    }
  }

  /** With no repeated name in the flattened list, no list repeats a name and
      no two lists share one. */
  lemma {:induction false} FlattenDistinct(names: seq<seq<string>>, n: nat)
    requires n <= |names| && PairwiseDistinct(Flatten(names, n))
    ensures forall i :: 0 <= i < n ==> PairwiseDistinct(names[i])
    ensures forall i, j, s :: 0 <= i < j < n && s in names[i] ==> s !in names[j]
  {
    if n > 0 {
      ConcatDistinct(Flatten(names, n - 1), names[n - 1]);
      FlattenDistinct(names, n - 1);
      FlattenMembers(names, n - 1);
    }
  }

  /** `init_parsers` up to the sample-name assertion: the header blocks of the
      files, or why there are none. `zip(*())` cannot be unpacked for zero
      files. */
  function InitSpec(contents: seq<seq<string>>): Result<seq<HeaderBlock>>
  {
    var blocks :- Collect(Firsts(HeaderResults(contents), |contents|));
    if |contents| == 0 then Err(ValueError)
    else if !NoRepeats(Flatten(Names(blocks), |blocks|)) then Err(AssertionError(CollidingSamples))
    else Ok(blocks)
  }

  /** `init_parsers` succeeds exactly when there is at least one file, every
      file's headers parse and no sample name occurs twice across the files. */
  lemma InitOk(contents: seq<seq<string>>)
    ensures InitSpec(contents).Ok? <==>
      |contents| > 0 && (forall i :: 0 <= i < |contents| ==> ParseHeadersSpec(contents[i]).Ok?)
      && PairwiseDistinct(Flatten(Names(Firsts(HeaderResults(contents), |contents|).oks), |Firsts(HeaderResults(contents), |contents|).oks|))
  {
    var rs := HeaderResults(contents);
    var p := Firsts(rs, |contents|);
    FirstsMeaning(rs, |contents|);
    AllOk(rs, |contents|);
    if p.failure.None? {
      NoRepeatsMeaning(Flatten(Names(p.oks), |p.oks|));
    }
  }

  /** On success `init_parsers` hands over each file's own header block, and
      no file repeats a sample name or shares one with another file. */
  lemma InitBlocks(contents: seq<seq<string>>)
    requires InitSpec(contents).Ok?
    ensures var blocks := InitSpec(contents).value;
      |blocks| == |contents| && (forall i :: 0 <= i < |contents| ==> Ok(blocks[i]) == ParseHeadersSpec(contents[i]))
      && (forall i :: 0 <= i < |blocks| ==> PairwiseDistinct(blocks[i].samples))
      && (forall i, j, s :: 0 <= i < j < |blocks| && s in blocks[i].samples ==> s !in blocks[j].samples)
  {
    var rs := HeaderResults(contents);
    var p := Firsts(rs, |contents|);
    FirstsMeaning(rs, |contents|);
    NoRepeatsMeaning(Flatten(Names(p.oks), |p.oks|));
    FlattenDistinct(Names(p.oks), |p.oks|);
  }

  /** `init_parsers`. */
  method InitParsers(contents: seq<seq<string>>) returns (r: Result<seq<HeaderBlock>>)
    ensures r == InitSpec(contents)
  {
    var blocks := ParseHeadersTogether(contents);
    if blocks.Err? {
      return blocks;
    }
    if |contents| == 0 {
      return Err(ValueError);
    }
    var flattened := Flatten(Names(blocks.value), |blocks.value|);
    if |set s | s in flattened| != |flattened| {
      return Err(AssertionError(CollidingSamples));
    }
    r := blocks;
  }

  /** The blocks `init_parsers` hands over are one per file. */
  lemma InitLength(contents: seq<seq<string>>)
    requires InitSpec(contents).Ok?
    ensures |InitSpec(contents).value| == |contents|
  {
    FirstsMeaning(HeaderResults(contents), |contents|);
  }

  // ---------------------------------------------------------------------------
  // The collection's metadata
  // ---------------------------------------------------------------------------

  /** `{vcf_filenames[i]: headers[i]._asdict() for i in range(len(headers))}`. */
  function VcfsOf(files: seq<string>, blocks: seq<HeaderBlock>, n: nat): map<string, Headers>
    requires n <= |files| && n <= |blocks|
  {
    if n == 0 then map[] else VcfsOf(files, blocks, n - 1)[files[n - 1] := blocks[n - 1].headers]
  }

  /** Every name of `names`, mapped to `f`. */
  function MapTo(names: seq<string>, f: string): (m: map<string, string>)
    ensures forall s :: s in m <==> s in names
    ensures forall s :: s in m ==> m[s] == f
  {
    map s | s in names :: f
  }

  /** `{sample: vcf_filenames[i] for i in range(len(headers)) for sample in samples[i]}`. */
  function SampleFilesOf(files: seq<string>, blocks: seq<HeaderBlock>, n: nat): map<string, string>
    requires n <= |files| && n <= |blocks|
  {
    if n == 0 then map[] else SampleFilesOf(files, blocks, n - 1) + MapTo(blocks[n - 1].samples, files[n - 1])
  }

  /** The headers map has one entry per file. */
  lemma {:induction false} VcfsOfKeys(files: seq<string>, blocks: seq<HeaderBlock>, n: nat)
    requires n <= |files| && n <= |blocks|
    ensures forall f :: f in VcfsOf(files, blocks, n) <==> exists i :: 0 <= i < n && files[i] == f
  {
    if n > 0 {
      VcfsOfKeys(files, blocks, n - 1);
    }
  }

  /** With distinct file names, each file's entry is its own headers. */
  lemma {:induction false} VcfsOfOwn(files: seq<string>, blocks: seq<HeaderBlock>, n: nat)
    requires n <= |files| && n <= |blocks| && PairwiseDistinct(files)
    ensures forall i :: 0 <= i < n ==> files[i] in VcfsOf(files, blocks, n) && VcfsOf(files, blocks, n)[files[i]] == blocks[i].headers
  {
    if n > 0 {
      VcfsOfOwn(files, blocks, n - 1);
    }
  }

  /** The sample map's keys are the sample names of the files. */
  lemma {:induction false} SampleFilesKeys(files: seq<string>, blocks: seq<HeaderBlock>, n: nat)
    requires n <= |files| && n <= |blocks|
    ensures forall s :: s in SampleFilesOf(files, blocks, n) <==> exists i :: 0 <= i < n && s in blocks[i].samples
  {
    if n > 0 {
      SampleFilesKeys(files, blocks, n - 1);
    }
  }

  /** Every sample is mapped to one of the files. */
  lemma {:induction false} SampleFilesValues(files: seq<string>, blocks: seq<HeaderBlock>, n: nat)
    requires n <= |files| && n <= |blocks|
    ensures forall s :: s in SampleFilesOf(files, blocks, n) ==> SampleFilesOf(files, blocks, n)[s] in files[..n]
  {
    if n > 0 {
      SampleFilesValues(files, blocks, n - 1);
      assert files[..n] == files[..n - 1] + [files[n - 1]];
    }
  }

  /** With no name shared by two files, each sample is mapped to its own file. */
  lemma {:induction false} SampleFilesOwn(files: seq<string>, blocks: seq<HeaderBlock>, n: nat)
    requires n <= |files| && n <= |blocks|
    requires forall i, j, s :: 0 <= i < j < n && s in blocks[i].samples ==> s !in blocks[j].samples
    ensures forall i, s :: 0 <= i < n && s in blocks[i].samples ==>
      s in SampleFilesOf(files, blocks, n) && SampleFilesOf(files, blocks, n)[s] == files[i]
  {
    if n > 0 {
      SampleFilesOwn(files, blocks, n - 1);
    }
  }

  /** The metadata document `quick_load` inserts. */
  function InitialMeta(files: seq<string>, blocks: seq<HeaderBlock>): Meta
    requires |files| == |blocks|
  {
    Meta(VcfsOf(files, blocks, |blocks|), SampleFilesOf(files, blocks, |blocks|), true, None, None)
  }

  // ---------------------------------------------------------------------------
  // Writing the documents
  // ---------------------------------------------------------------------------

  predicate AllIndexed(groups: seq<Group>, files: seq<string>, names: seq<seq<string>>)
  {
    forall k :: 0 <= k < |groups| ==> Indexed(groups[k], files, names)
  }

  /** The joined groups of the files, once their headers are parsed. */
  function JoinOf(blocks: seq<HeaderBlock>): Joined
  {
    Join.Join(Streams(Inputs(blocks), false))
  }

  /** The groups of the join address the files and their sample names. */
  lemma JoinIndexed(blocks: seq<HeaderBlock>, files: seq<string>)
    requires |blocks| == |files|
    ensures AllIndexed(JoinOf(blocks).groups, files, Names(blocks))
  {
    JoinShape(Streams(Inputs(blocks), false));
  }

  /** `merge_records` of each group. */
  function MergeResults(groups: seq<Group>, files: seq<string>, names: seq<seq<string>>): (rs: seq<Result<Doc>>)
    requires AllIndexed(groups, files, names)
    ensures |rs| == |groups| && forall k :: 0 <= k < |groups| ==> rs[k] == MergeSpec(groups[k], files, names)
  {
    seq(|groups|, k requires 0 <= k < |groups| => MergeSpec(groups[k], files, names))
  }

  /** The documents of the groups up to the first group that cannot be merged. */
  function MergedOf(groups: seq<Group>, files: seq<string>, names: seq<seq<string>>): Partial<Doc>
    requires AllIndexed(groups, files, names)
  {
    Firsts(MergeResults(groups, files, names), |groups|)
  }

  /** The documents merged from the join of the files, up to the first failure. */
  function MergedAll(files: seq<string>, blocks: seq<HeaderBlock>): Partial<Doc>
    requires |blocks| == |files|
  {
    JoinIndexed(blocks, files);
    MergedOf(JoinOf(blocks).groups, files, Names(blocks))
  }

  /** The `for multirecord in parsers` loop over the groups of the join. */
  method WriteGroups(store: Store, c: string, groups: seq<Group>, files: seq<string>, names: seq<seq<string>>,
                     append: bool) returns (err: Option<Exc>)
    requires AllIndexed(groups, files, names)
    modifies store
    ensures Outcome(store.db, err) == WriteSpec(old(store.db), c, MergedOf(groups, files, names), append)
  {
    ghost var db0 := store.db;
    ghost var rs := MergeResults(groups, files, names);
    var k := 0;
    while k < |groups|
      invariant k <= |groups|
      invariant Written(db0, c, rs, k, append, store.db)
    {
      err := WriteNext(store, c, groups, files, names, append, k, db0);
      if err.Some? {
        return;
      }
      k := k + 1;
    }
    err := None;
  }

  /** One turn of the loop: merge group `k`, then write its document. */
  method WriteNext(store: Store, c: string, groups: seq<Group>, files: seq<string>, names: seq<seq<string>>,
                   append: bool, k: nat, ghost db0: Db) returns (err: Option<Exc>)
    requires AllIndexed(groups, files, names) && k < |groups|
    requires Written(db0, c, MergeResults(groups, files, names), k, append, store.db)
    modifies store
    ensures err.None? ==> Written(db0, c, MergeResults(groups, files, names), k + 1, append, store.db)
    ensures err.Some? ==> Outcome(store.db, err) == WriteSpec(db0, c, MergedOf(groups, files, names), append)
  {
    ghost var rs := MergeResults(groups, files, names);
    var r := MergeRecords(groups[k], files, names);
    assert rs[k] == r;
    if r.Err? {
      MergeFailureEnds(db0, c, rs, k, append, store.db);
      return Some(r.error);
    }
    err := WriteDoc(store, c, r.value, append, db0, Firsts(rs, k).oks);
    if err.Some? {
      WriteFailureEnds(db0, c, rs, k + 1, append);
    }
  }

  /** Everything after the metadata write: the documents, then the end. */
  function LoadSpec(db: Db, c: string, files: seq<string>, blocks: seq<HeaderBlock>, append: bool): Outcome
    requires |blocks| == |files|
  {
    LoadWith(db, c, MergedAll(files, blocks), JoinOf(blocks).end, append)
  }

  method Load(store: Store, c: string, files: seq<string>, blocks: seq<HeaderBlock>, append: bool, caches: Caches)
      returns (err: Option<Exc>)
    requires |blocks| == |files|
    modifies store, caches
    ensures Outcome(store.db, err) == LoadSpec(old(store.db), c, files, blocks, append)
  {
    var groups, end := ParseRecordsTogether(Inputs(blocks), false, caches);
    JoinIndexed(blocks, files);
    err := WriteGroups(store, c, groups, files, Names(blocks), append);
    if err.Some? {
      return;
    }
    err := Finish(store, c, end, append);
  }

  // ---------------------------------------------------------------------------
  // quick_load (vcf_import.py:145-176)
  // ---------------------------------------------------------------------------

  /** `quick_load` once the headers are parsed, given the merged documents
      and how the join ended: the metadata document with `doing_init`, the
      table, the documents, `sync`, and `doing_init` removed. */
  function QuickBlocks(db: Db, c: string, files: seq<string>, blocks: seq<HeaderBlock>, merged: Partial<Doc>,
                       end: JoinEnd): Outcome
    requires |files| == |blocks|
  {
    var setup := Run(db, [InsertMeta(c, InitialMeta(files, blocks)), TableCreate(c)]);
    if setup.error.Some? then setup else LoadWith(setup.db, c, merged, end, false)
  }

  /** `quick_load`: the headers, then the writes. */
  function QuickLoadSpec(db: Db, c: string, files: seq<string>, contents: seq<seq<string>>): Outcome
    requires |contents| == |files|
  {
    match InitSpec(contents)
    case Err(e) => Outcome(db, Some(e))
    case Ok(blocks) =>
      InitLength(contents);
      QuickBlocks(db, c, files, blocks, MergedAll(files, blocks), JoinOf(blocks).end)
  }

  method QuickLoad(store: Store, c: string, files: seq<string>, contents: seq<seq<string>>, caches: Caches)
      returns (err: Option<Exc>)
    requires |contents| == |files|
    modifies store, caches
    ensures Outcome(store.db, err) == QuickLoadSpec(old(store.db), c, files, contents)
  {
    var init := InitParsers(contents);
    if init.Err? {
      return Some(init.error);
    }
    var blocks := init.value;
    InitLength(contents);
    err := store.ExecAll([InsertMeta(c, InitialMeta(files, blocks)), TableCreate(c)]);
    if err.Some? {
      return;
    }
    err := Load(store, c, files, blocks, false, caches);
  }

  // ---------------------------------------------------------------------------
  // append_load (vcf_import.py:180-256)
  // ---------------------------------------------------------------------------

  /** The sample names of all the files. */
  function NewSamples(blocks: seq<HeaderBlock>): set<string>
  {
    set s | s in Flatten(Names(blocks), |blocks|)
  }

  /** The metadata merge of an append. */
  function AppendMetaOp(c: string, files: seq<string>, blocks: seq<HeaderBlock>): Op
    requires |files| == |blocks|
  {
    MergeMeta(c, VcfsOf(files, blocks, |blocks|), SampleFilesOf(files, blocks, |blocks|), files)
  }

  /** `append_load` once the headers are parsed, given the merged documents
      and how the join ended: the two collision guards, the metadata merge
      with `appending_filenames`, the upserts, `sync`, and the marker
      removed. */
  function AppendBlocks(db: Db, c: string, files: seq<string>, blocks: seq<HeaderBlock>, merged: Partial<Doc>,
                        end: JoinEnd): Outcome
    requires |files| == |blocks| && c in db.meta
  {
    if NewSamples(blocks) * db.meta[c].samples.Keys != {} then Outcome(db, Some(Exit(SampleCollision)))
    else if (set f | f in files) * db.meta[c].vcfs.Keys != {} then Outcome(db, Some(Exit(FileCollision)))
    else
      var meta := StepOutcome(db, AppendMetaOp(c, files, blocks));
      if meta.error.Some? then meta else LoadWith(meta.db, c, merged, end, true)
  }

  /** `append_load`: the consistency guard, the hand-off to `quick_load` for
      a new collection, the pending-job guard, the headers, then the rest. */
  function AppendLoadSpec(db: Db, c: string, files: seq<string>, contents: seq<seq<string>>): Outcome
    requires |contents| == |files|
  {
    var tableExists := c in TableList(db);
    var metaExists := c in db.meta;
    if tableExists != metaExists then Outcome(db, Some(AssertionError(InconsistentCollection)))
    else if !metaExists then QuickLoadSpec(db, c, files, contents)
    else if db.meta[c].doingInit || db.meta[c].appending.Some? then Outcome(db, Some(AssertionError(PendingJob)))
    else
      match InitSpec(contents)
      case Err(e) => Outcome(db, Some(e))
      case Ok(blocks) =>
        InitLength(contents);
        AppendBlocks(db, c, files, blocks, MergedAll(files, blocks), JoinOf(blocks).end)
  }

  method AppendLoad(store: Store, c: string, files: seq<string>, contents: seq<seq<string>>, caches: Caches)
      returns (err: Option<Exc>)
    requires |contents| == |files|
    modifies store, caches
    ensures Outcome(store.db, err) == AppendLoadSpec(old(store.db), c, files, contents)
  {
    var tableExists := c in TableList(store.db);
    var metaExists := c in store.db.meta;
    if tableExists != metaExists {
      return Some(AssertionError(InconsistentCollection));
    }
    if !metaExists {
      err := QuickLoad(store, c, files, contents, caches);
      return;
    }
    var m := store.db.meta[c];
    if m.doingInit || m.appending.Some? {
      return Some(AssertionError(PendingJob));
    }
    var init := InitParsers(contents);
    if init.Err? {
      return Some(init.error);
    }
    var blocks := init.value;
    InitLength(contents);
    if NewSamples(blocks) * m.samples.Keys != {} {
      return Some(Exit(SampleCollision));
    }
    if (set f | f in files) * m.vcfs.Keys != {} {
      return Some(Exit(FileCollision));
    }
    err := store.Exec(AppendMetaOp(c, files, blocks));
    if err.Some? {
      return;
    }
    err := Load(store, c, files, blocks, true, caches);
  }

  // ---------------------------------------------------------------------------
  // main (vcf_import.py:41-75)
  // ---------------------------------------------------------------------------

  /** `main` once connected: the argument checks, the check that a new
      collection does not exist yet, then the load. */
  function ImportSpec(db: Db, dbName: string, c: string, files: seq<string>, contents: seq<seq<string>>,
                      append: bool): Outcome
    requires |contents| == |files|
  {
    match ImportArgsCheck(dbName, c, files)
    case Some(e) => Outcome(db, Some(e))
    case None =>
      if !append && (c in TableList(db) || c in db.meta) then Outcome(db, Some(AssertionError(CollectionExists)))
      else if append then AppendLoadSpec(db, c, files, contents)
      else QuickLoadSpec(db, c, files, contents)
  }
}

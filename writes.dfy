/** The writes a load sends once its metadata is in place: one document
    write per merged group, then `sync` and the removal of the pending
    marker (vcf_import.py:160-175 and 236-254), and what they do to the
    database. */
module Writes {
  import opened Strings
  import opened VcfTypes
  import opened Join
  import opened Merge
  import opened Store
  import opened Results

  /** The write of one merged document: an insert for a new collection, the
      REF-checked upsert for an append. */
  function DocOp(c: string, d: Doc, append: bool): Op
  {
    if append then Upsert(c, d) else Insert(c, d)
  }

  function DocOps(c: string, docs: seq<Doc>, append: bool): (ops: seq<Op>)
    ensures |ops| == |docs| && forall i :: 0 <= i < |docs| ==> ops[i] == DocOp(c, docs[i], append)
  {
    seq(|docs|, i requires 0 <= i < |docs| => DocOp(c, docs[i], append))
  }

  /** The `for multirecord in parsers` loop: each group is merged, then its
      document written; the first exception, of a merge or of a write, stops
      it. The documents before a failed merge are all written first. */
  function WriteSpec(db: Db, c: string, merged: Partial<Doc>, append: bool): Outcome
  {
    var o := Run(db, DocOps(c, merged.oks, append));
    if o.error.Some? then o else Outcome(o.db, merged.failure)
  }

  /** The state of the loop after `k` groups: all of them merged, and their
      documents written without exception. */
  ghost predicate Written(db0: Db, c: string, rs: seq<Result<Doc>>, k: nat, append: bool, db: Db)
  {
    k <= |rs| && Firsts(rs, k).failure.None? && Run(db0, DocOps(c, Firsts(rs, k).oks, append)) == Outcome(db, None)
  }

  /** A group that cannot be merged ends the loop with its exception. */
  lemma MergeFailureEnds(db0: Db, c: string, rs: seq<Result<Doc>>, k: nat, append: bool, db: Db)
    requires k < |rs| && rs[k].Err? && Written(db0, c, rs, k, append, db)
    ensures WriteSpec(db0, c, Firsts(rs, |rs|), append) == Outcome(db, Some(rs[k].error))
  {
    FirstsSticky(rs, k + 1, |rs|);
  }

  /** One document write, continuing the writes before it. */
  method WriteDoc(store: Store, c: string, d: Doc, append: bool, ghost db0: Db, ghost docs: seq<Doc>)
      returns (err: Option<Exc>)
    requires Run(db0, DocOps(c, docs, append)) == Outcome(store.db, None)
    modifies store
    ensures Run(db0, DocOps(c, docs + [d], append)) == Outcome(store.db, err)
  {
    err := store.Exec(DocOp(c, d, append));
    RunSnoc(db0, DocOps(c, docs, append), DocOp(c, d, append));
    assert DocOps(c, docs + [d], append) == DocOps(c, docs, append) + [DocOp(c, d, append)];
  }

  /** A write that raises ends the loop with its exception. */
  lemma WriteFailureEnds(db: Db, c: string, rs: seq<Result<Doc>>, k: nat, append: bool)
    requires k <= |rs| && Firsts(rs, k).failure.None?
    requires Run(db, DocOps(c, Firsts(rs, k).oks, append)).error.Some?
    ensures WriteSpec(db, c, Firsts(rs, |rs|), append) == Run(db, DocOps(c, Firsts(rs, k).oks, append))
  {
    var a := Firsts(rs, k).oks;
    var b := Firsts(rs, |rs|).oks;
    FirstsExtends(rs, k, |rs|);
    assert DocOps(c, b, append)[..|a|] == DocOps(c, a, append);
    RunStops(db, DocOps(c, b, append), |a|);
  }

  /** After the loop: `sync`, then the marker goes. An exception of the
      decoders ends the loop instead; a stalled join yields an empty group,
      on which `merge_records` raises IndexError. */
  function FinishSpec(db: Db, c: string, end: JoinEnd, append: bool): Outcome
  {
    match end
    case Done => Run(db, [Sync(c), if append then ClearAppending(c) else ClearDoingInit(c)])
    case Aborted(e) => Outcome(db, Some(e))
    case Stalled => Outcome(db, Some(IndexError))
  }

  method Finish(store: Store, c: string, end: JoinEnd, append: bool) returns (err: Option<Exc>)
    modifies store
    ensures Outcome(store.db, err) == FinishSpec(old(store.db), c, end, append)
  {
    match end
    case Done =>
      err := store.ExecAll([Sync(c), if append then ClearAppending(c) else ClearDoingInit(c)]);
    case Aborted(e) =>
      err := Some(e);
    case Stalled =>
      err := Some(IndexError);
  }

  /** Everything after the metadata write, given the merged documents and how
      the join ended. */
  function LoadWith(db: Db, c: string, merged: Partial<Doc>, end: JoinEnd, append: bool): Outcome
  {
    var w := WriteSpec(db, c, merged, append);
    if w.error.Some? then w else FinishSpec(w.db, c, end, append)
  }

  // ---------------------------------------------------------------------------
  // What the writes do
  // ---------------------------------------------------------------------------

  /** The metadata once the load's marker is removed. */
  function Cleared(m: Meta, append: bool): Meta
  {
    if append then m.(appending := None) else m.(doingInit := false)
  }

  /** The ids of some documents. */
  function IdsOf(docs: seq<Doc>): set<string>
  {
    set d | d in docs :: d.id
  }

  // ---------------------------------------------------------------------------
  // The document writes
  // ---------------------------------------------------------------------------

  /** One document write touches the collection's table only; an insert
      into an existing table never raises, an upsert raises only on a stored
      REF that differs, and a missing table raises `OpFailed`. A write that
      goes through leaves the table with the document's id. */
  lemma DocOpEffect(db: Db, c: string, d: Doc, append: bool)
    ensures var o := StepOutcome(db, DocOp(c, d, append));
      o.db.meta == db.meta && o.db.tables.Keys == db.tables.Keys
      && (forall t :: t in db.tables && t != c ==> o.db.tables[t] == db.tables[t])
      && (c in db.tables && !append ==> o.error.None?)
      && (o.error.Some? ==> (c !in db.tables && o.error == Some(OpFailed))
                            || (c in db.tables && append && o.error == Some(Exit(StoredRefMismatch))))
      && (c in db.tables && o.error.None? ==> o.db.tables[c].Keys == db.tables[c].Keys + {d.id})
  {
  }

  lemma IdsOfSnoc(docs: seq<Doc>)
    requires |docs| > 0
    ensures IdsOf(docs) == IdsOf(docs[..|docs| - 1]) + {docs[|docs| - 1].id}
  {
    var init := docs[..|docs| - 1];
    assert docs == init + [docs[|docs| - 1]];
    assert forall d :: d in docs <==> d in init || d == docs[|docs| - 1];
  }

  /** The writes after `docs` are those of `docs` and then the last one's. */
  lemma DocOpsSnoc(db: Db, c: string, docs: seq<Doc>, append: bool)
    requires |docs| > 0
    ensures var prev := Run(db, DocOps(c, docs[..|docs| - 1], append));
      Run(db, DocOps(c, docs, append))
        == if prev.error.Some? then prev else StepOutcome(prev.db, DocOp(c, docs[|docs| - 1], append))
  {
    var init := docs[..|docs| - 1];
    assert DocOps(c, docs, append) == DocOps(c, init, append) + [DocOp(c, docs[|docs| - 1], append)];
    RunSnoc(db, DocOps(c, init, append), DocOp(c, docs[|docs| - 1], append));
  }

  /** The document writes touch the collection's table only: the metadata, the
      set of tables and every other table stay as they were. */
  lemma {:induction false} DocOpsFrame(db: Db, c: string, docs: seq<Doc>, append: bool)
    ensures var o := Run(db, DocOps(c, docs, append));
      o.db.meta == db.meta && o.db.tables.Keys == db.tables.Keys
      && forall t :: t in db.tables && t != c ==> o.db.tables[t] == db.tables[t]
    decreases |docs|
  {
    if |docs| > 0 {
      var init := docs[..|docs| - 1];
      DocOpsFrame(db, c, init, append);
      DocOpsSnoc(db, c, docs, append);
      DocOpEffect(Run(db, DocOps(c, init, append)).db, c, docs[|docs| - 1], append);
    }
  }

  /** Inserts into an existing table never raise; upserts raise only on a
      stored REF that differs, and a missing table raises `OpFailed`. */
  lemma {:induction false} DocOpsErrors(db: Db, c: string, docs: seq<Doc>, append: bool)
    ensures var o := Run(db, DocOps(c, docs, append));
      (c in db.tables && !append ==> o.error.None?)
      && (o.error.Some? ==> (c !in db.tables && o.error == Some(OpFailed))
                            || (c in db.tables && append && o.error == Some(Exit(StoredRefMismatch))))
    decreases |docs|
  {
    if |docs| > 0 {
      var init := docs[..|docs| - 1];
      DocOpsErrors(db, c, init, append);
      DocOpsFrame(db, c, init, append);
      DocOpsSnoc(db, c, docs, append);
      DocOpEffect(Run(db, DocOps(c, init, append)).db, c, docs[|docs| - 1], append);
    }
  }

  /** After writes that all went through, the table holds the documents it
      held before and one under each written id. */
  lemma {:induction false} DocOpsKeys(db: Db, c: string, docs: seq<Doc>, append: bool)
    requires c in db.tables
    ensures var o := Run(db, DocOps(c, docs, append));
      c in o.db.tables && (o.error.None? ==> o.db.tables[c].Keys == db.tables[c].Keys + IdsOf(docs))
    decreases |docs|
  {
    DocOpsFrame(db, c, docs, append);
    if |docs| > 0 {
      var init := docs[..|docs| - 1];
      var last := docs[|docs| - 1];
      DocOpsKeys(db, c, init, append);
      DocOpsFrame(db, c, init, append);
      DocOpsSnoc(db, c, docs, append);
      DocOpEffect(Run(db, DocOps(c, init, append)).db, c, last, append);
      IdsOfSnoc(docs);
    }
  }

  // ---------------------------------------------------------------------------
  // The end of a load
  // ---------------------------------------------------------------------------

  /** `sync` and the marker removal touch the metadata only, and only when the
      join ran to its end. */
  lemma FinishMarker(db: Db, c: string, end: JoinEnd, append: bool)
    requires c in db.tables
    ensures var o := FinishSpec(db, c, end, append);
      o.db.tables == db.tables
      && (o.error.None? <==> end.Done?)
      && (o.error.Some? ==> o.db.meta == db.meta)
      && (o.error.None? ==> o.db.meta == if c in db.meta then db.meta[c := Cleared(db.meta[c], append)] else db.meta)
  {
    if end.Done? {
      RunPair(db, Sync(c), if append then ClearAppending(c) else ClearDoingInit(c));
    }
  }

  /** Everything after the metadata write: the tables other than the
      collection's are kept, and the metadata changes only by the marker's
      removal, which happens exactly when every document was merged and
      written and the join ran to its end. */
  lemma LoadWithMarker(db: Db, c: string, merged: Partial<Doc>, end: JoinEnd, append: bool)
    requires c in db.tables
    ensures var o := LoadWith(db, c, merged, end, append);
      c in o.db.tables && o.db.tables.Keys == db.tables.Keys
      && (forall t :: t in db.tables && t != c ==> o.db.tables[t] == db.tables[t])
      && (o.error.Some? ==> o.db.meta == db.meta)
      && (o.error.None? ==> o.db.meta == if c in db.meta then db.meta[c := Cleared(db.meta[c], append)] else db.meta)
      && (o.error.None? ==> merged.failure.None? && end.Done?
                            && o.db.tables[c].Keys == db.tables[c].Keys + IdsOf(merged.oks))
      && (!append && merged.failure.None? && end.Done? ==> o.error.None?)
  {
    var w := Run(db, DocOps(c, merged.oks, append));
    DocOpsFrame(db, c, merged.oks, append);
    DocOpsErrors(db, c, merged.oks, append);
    DocOpsKeys(db, c, merged.oks, append);
    if w.error.None? && merged.failure.None? {
      FinishMarker(w.db, c, end, append);
    }
  }
}

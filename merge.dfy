/** `merge_records` of vcf_import.py: one group of the merge-join becomes one
    document keyed `CHROM-POS`, with one entry per input file and one flat
    map of samples, genotypes rewritten from allele indices to alleles. */
module Merge {
  import opened Strings
  import opened VcfTypes
  import opened Join

  /** One decoded genotype column: FORMAT key to value. */
  type Sample = map<string, Value>

  /** The document stored for one position. The per-file maps are keyed by
      file name, `samples` by sample name. */
  datatype Doc = Doc(
    id: string,
    chrom: string,
    pos: int,
    ref: string,
    ids: map<string, string>,
    quals: map<string, Float>,
    filters: map<string, string>,
    infos: map<string, map<string, Value>>,
    samples: map<string, Sample>)

  /** `'-'.join([CHROM, str(POS)])`. */
  function DocId(chrom: string, pos: int): string
  {
    chrom + "-" + IntToStr(pos)
  }

  /** The index of the last `-` in `s`, or -1. */
  function LastDash(s: string): (i: int)
    ensures -1 <= i < |s|
    decreases |s|
  {
    if |s| == 0 then -1
    else if s[|s| - 1] == '-' then |s| - 1
    else LastDash(s[..|s| - 1])
  }

  lemma {:induction false} LastDashBeforeDigits(c: string, d: string)
    requires AllDigits(d)
    ensures LastDash(c + "-" + d) == |c|
    decreases |d|
  {
    var s := c + "-" + d;
    if |d| > 0 {
      assert IsDigit(s[|s| - 1]);
      assert s[..|s| - 1] == c + "-" + d[..|d| - 1];
      LastDashBeforeDigits(c, d[..|d| - 1]);
    }
  }

  /** With non-negative positions the id determines CHROM and POS: the digits
      of `str(POS)` hold no `-`, so the last `-` of the id separates them. */
  lemma DocIdInjective(c1: string, p1: int, c2: string, p2: int)
    requires p1 >= 0 && p2 >= 0 && DocId(c1, p1) == DocId(c2, p2)
    ensures c1 == c2 && p1 == p2
  {
    var d1, d2 := NatToStr(p1), NatToStr(p2);
    var s := DocId(c1, p1);
    LastDashBeforeDigits(c1, d1);
    LastDashBeforeDigits(c2, d2);
    assert c1 == s[..|c1|] == c2;
    assert d1 == s[|c1| + 1..] == d2;
  }

  /** A negative POS breaks injectivity: `a:-5` and `a-:5` share `a--5`. */
  lemma NegativePosIdCollision()
    ensures DocId("a", -5) == DocId("a-", 5)
    ensures ("a", -5) != ("a-", 5)
  {
    assert NatToStr(5) == "5";
  }

  // ---------------------------------------------------------------------------
  // Genotype rewriting
  // ---------------------------------------------------------------------------

  /** `x in "|/."`: `x` is a substring of `|/.`, the empty string included. */
  predicate InMarks(x: string)
  {
    x in {"", "|", "/", ".", "|/", "/.", "|/."}
  }

  /** `record.ALT[int(x)]` with REF already at index 0, so `alleles` is
      REF followed by ALT; a negative index counts from the end. */
  function AlleleAt(alleles: seq<string>, piece: string): Result<string>
  {
    match ParseInt(piece)
    case None => Err(ValueError)
    case Some(k) =>
      if 0 <= k < |alleles| then Ok(alleles[k])
      else if -|alleles| <= k < 0 then Ok(alleles[|alleles| + k])
      else Err(IndexError)
  }

  function RewritePiece(piece: string, alleles: seq<string>): Result<string>
  {
    if InMarks(piece) then Ok(piece) else AlleleAt(alleles, piece)
  }

  /** The list comprehension over the pieces: the first piece that fails raises. */
  function RewritePieces(pieces: seq<string>, alleles: seq<string>): Result<seq<string>>
    decreases |pieces|
  {
    if |pieces| == 0 then Ok([])
    else
      var head :- RewritePiece(pieces[0], alleles);
      var tail :- RewritePieces(pieces[1..], alleles);
      Ok([head] + tail)
  }

  lemma {:induction false} RewritePiecesMeaning(pieces: seq<string>, alleles: seq<string>)
    ensures RewritePieces(pieces, alleles).Ok? <==>
      forall k :: 0 <= k < |pieces| ==> RewritePiece(pieces[k], alleles).Ok?
    ensures RewritePieces(pieces, alleles).Err? ==>
      exists k :: 0 <= k < |pieces| && RewritePiece(pieces[k], alleles).Err?
        && RewritePieces(pieces, alleles).error == RewritePiece(pieces[k], alleles).error
    ensures RewritePieces(pieces, alleles).Ok? ==>
      |RewritePieces(pieces, alleles).value| == |pieces|
      && forall k :: 0 <= k < |pieces| ==>
           RewritePieces(pieces, alleles).value[k] == RewritePiece(pieces[k], alleles).value
    decreases |pieces|
  {
    if |pieces| > 0 {
      var tail := pieces[1..];
      RewritePiecesMeaning(tail, alleles);
      var r := RewritePieces(pieces, alleles);
      if r.Ok? {
        forall k | 1 <= k < |pieces| ensures r.value[k] == RewritePieces(tail, alleles).value[k - 1] { }
      }
      if RewritePiece(pieces[0], alleles).Ok? && RewritePieces(tail, alleles).Err? {
        var k :| 0 <= k < |tail| && RewritePiece(tail[k], alleles).Err?
          && RewritePieces(tail, alleles).error == RewritePiece(tail[k], alleles).error;
        assert tail[k] == pieces[k + 1];
      }
      if forall k :: 0 <= k < |pieces| ==> RewritePiece(pieces[k], alleles).Ok? {
        forall k | 0 <= k < |tail| ensures RewritePiece(tail[k], alleles).Ok? {
          assert tail[k] == pieces[k + 1];
        }
      }
    }
  }

  /** `[x if x in "|/." else record.ALT[int(x)] for x in re.split(r'([|/])', GT)]`. */
  function RewriteGt(gt: string, alleles: seq<string>): Result<seq<string>>
  {
    RewritePieces(SplitAlleles(gt), alleles)
  }

  /** A piece that is neither a mark nor an index within REF and ALT. */
  predicate Acceptable(piece: string, alleles: seq<string>)
  {
    InMarks(piece) || (ParseInt(piece).Some? && -|alleles| <= ParseInt(piece).value < |alleles|)
  }

  /** The GT rewrite succeeds exactly when every piece is a mark or an index
      within REF and ALT; otherwise an unreadable piece raises ValueError and
      an index out of range IndexError. */
  lemma GtRewriteSucceeds(gt: string, ref: string, alt: seq<string>)
    ensures var r := RewriteGt(gt, [ref] + alt);
      (r.Ok? <==> forall k :: 0 <= k < |SplitAlleles(gt)| ==> Acceptable(SplitAlleles(gt)[k], [ref] + alt))
      && (r.Err? ==> r.error == ValueError || r.error == IndexError)
  {
    var pieces := SplitAlleles(gt);
    var alleles := [ref] + alt;
    RewritePiecesMeaning(pieces, alleles);
    var r := RewriteGt(gt, alleles);
    if r.Err? {
      var k :| 0 <= k < |pieces| && RewritePiece(pieces[k], alleles).Err?
        && r.error == RewritePiece(pieces[k], alleles).error;
    }
  }

  /** What one piece becomes: a mark stays as it is; index 0 is REF, index
      k > 0 the k-th ALT, and a negative index counts back from the last ALT. */
  predicate PieceRewritten(piece: string, out: string, ref: string, alt: seq<string>)
  {
    (InMarks(piece) ==> out == piece)
    && (!InMarks(piece) ==>
          ParseInt(piece).Some?
          && var i := ParseInt(piece).value;
          (i == 0 ==> out == ref)
          && (1 <= i <= |alt| ==> out == alt[i - 1])
          && (-(|alt| + 1) <= i < 0 ==> out == ([ref] + alt)[|alt| + 1 + i]))
  }

  /** A successful rewrite keeps one entry per piece, every separator in its
      place, and maps each piece as `PieceRewritten` says. */
  lemma GtRewriteValues(gt: string, ref: string, alt: seq<string>)
    requires RewriteGt(gt, [ref] + alt).Ok?
    ensures var pieces := SplitAlleles(gt);
      var out := RewriteGt(gt, [ref] + alt).value;
      |out| == |pieces|
      && (forall k :: 0 <= k < |pieces| ==> PieceRewritten(pieces[k], out[k], ref, alt))
      && (forall k :: 0 <= k < |pieces| && k % 2 == 1 ==>
            out[k] == pieces[k] && |out[k]| == 1 && IsAlleleSeparator(out[k][0]))
  {
    var pieces := SplitAlleles(gt);
    var alleles := [ref] + alt;
    RewritePiecesMeaning(pieces, alleles);
    SplitAllelesShape(gt);
    var out := RewriteGt(gt, alleles).value;
    forall k | 0 <= k < |pieces| ensures PieceRewritten(pieces[k], out[k], ref, alt) {
      PieceRewrittenOk(pieces[k], ref, alt);
    }
    forall k | 0 <= k < |pieces| && k % 2 == 1
      ensures out[k] == pieces[k] && |out[k]| == 1 && IsAlleleSeparator(out[k][0])
    {
      SeparatorKept(pieces[k], alleles);
    }
  }

  lemma PieceRewrittenOk(piece: string, ref: string, alt: seq<string>)
    requires RewritePiece(piece, [ref] + alt).Ok?
    ensures PieceRewritten(piece, RewritePiece(piece, [ref] + alt).value, ref, alt)
  {
  }

  lemma SeparatorKept(piece: string, alleles: seq<string>)
    requires |piece| == 1 && IsAlleleSeparator(piece[0])
    ensures RewritePiece(piece, alleles) == Ok(piece)
  {
    assert piece == [piece[0]];
  }

  /** The atoms of a rewritten GT: a list of strings. */
  function Strs(g: seq<string>): (atoms: seq<Atom>)
    ensures |atoms| == |g| && forall k :: 0 <= k < |g| ==> atoms[k] == Str(g[k])
  {
    seq(|g|, k requires 0 <= k < |g| => Str(g[k]))
  }

  /** `if 'GT' in sample: sample['GT'] = [...]`: only a text value can be
      split, any other decoded value (an int, or a list such as the `['.']`
      of a missing value) raises TypeError. */
  function RewriteSample(s: Sample, alleles: seq<string>): Result<Sample>
  {
    if "GT" !in s then Ok(s)
    else
      match s["GT"]
      case One(Str(gt)) =>
        var g :- RewriteGt(gt, alleles);
        Ok(s["GT" := Many(Strs(g))])
      case _ => Err(TypeError)
  }

  /** The samples of one record rewritten in order; the first failure raises. */
  function RewriteSamples(ss: seq<Sample>, alleles: seq<string>): Result<seq<Sample>>
    decreases |ss|
  {
    if |ss| == 0 then Ok([])
    else
      var init :- RewriteSamples(ss[..|ss| - 1], alleles);
      var last :- RewriteSample(ss[|ss| - 1], alleles);
      Ok(init + [last])
  }

  /** A rewrite keeps one sample per sample, changes only `GT`, and fails
      exactly when some sample's `GT` fails. */
  lemma {:induction false} RewriteSamplesMeaning(ss: seq<Sample>, alleles: seq<string>)
    ensures RewriteSamples(ss, alleles).Ok? <==>
      forall j :: 0 <= j < |ss| ==> RewriteSample(ss[j], alleles).Ok?
    ensures RewriteSamples(ss, alleles).Ok? ==>
      |RewriteSamples(ss, alleles).value| == |ss|
      && forall j :: 0 <= j < |ss| ==> RewriteSamples(ss, alleles).value[j] == RewriteSample(ss[j], alleles).value
    decreases |ss|
  {
    if |ss| > 0 {
      var init := ss[..|ss| - 1];
      RewriteSamplesMeaning(init, alleles);
      if forall j :: 0 <= j < |ss| ==> RewriteSample(ss[j], alleles).Ok? {
        forall j | 0 <= j < |init| ensures RewriteSample(init[j], alleles).Ok? {
          assert init[j] == ss[j];
        }
      }
      if RewriteSamples(init, alleles).Err? {
        var j :| 0 <= j < |init| && !RewriteSample(init[j], alleles).Ok?;
        assert init[j] == ss[j];
      }
    }
  }

  /** A sample's rewrite touches only `GT`. */
  lemma RewriteSampleKeys(s: Sample, alleles: seq<string>)
    requires RewriteSample(s, alleles).Ok?
    ensures RewriteSample(s, alleles).value.Keys == s.Keys
    ensures forall key :: key in s && key != "GT" ==> RewriteSample(s, alleles).value[key] == s[key]
  {
  }

  /** `record.samples` rewritten in place, one sample at a time. */
  method RewriteRecordSamples(ss: seq<Sample>, alleles: seq<string>) returns (r: Result<seq<Sample>>)
    ensures r == RewriteSamples(ss, alleles)
  {
    var done: seq<Sample> := [];
    var j := 0;
    while j < |ss|
      invariant j <= |ss|
      invariant RewriteSamples(ss[..j], alleles) == Ok(done)
    {
      assert ss[..j + 1][..j] == ss[..j];
      var s := RewriteSample(ss[j], alleles);
      if s.Err? {
        RewriteSamplesPrefix(ss, alleles, j + 1);
        return Err(s.error);
      }
      done := done + [s.value];
      j := j + 1;
    }
    assert ss[..j] == ss;
    r := Ok(done);
  }

  /** A failure on a prefix is the failure of the whole. */
  lemma {:induction false} RewriteSamplesPrefix(ss: seq<Sample>, alleles: seq<string>, n: nat)
    requires n <= |ss| && RewriteSamples(ss[..n], alleles).Err?
    ensures RewriteSamples(ss, alleles) == RewriteSamples(ss[..n], alleles)
    decreases |ss| - n
  {
    if n < |ss| {
      assert ss[..n + 1][..n] == ss[..n];
      RewriteSamplesPrefix(ss, alleles, n + 1);
    } else {
      assert ss[..n] == ss;
    }
  }

  // ---------------------------------------------------------------------------
  // The per-file maps
  // ---------------------------------------------------------------------------

  /** `samples.update([(sample_names[i][k], sample_data) ...])`: later pairs win. */
  function UpdateSamples(m: map<string, Sample>, names: seq<string>, ss: seq<Sample>): map<string, Sample>
    requires |ss| <= |names|
    decreases |ss|
  {
    if |ss| == 0 then m
    else UpdateSamples(m, names, ss[..|ss| - 1])[names[|ss| - 1] := ss[|ss| - 1]]
  }

  /** The first `m` names, as a set. */
  function Prefix(names: seq<string>, m: nat): set<string>
    requires m <= |names|
  {
    set j | 0 <= j < m :: names[j]
  }

  /** The update adds exactly the first `|ss|` names, and with distinct names
      each maps to its own sample. */
  lemma {:induction false} UpdateSamplesKeys(m: map<string, Sample>, names: seq<string>, ss: seq<Sample>)
    requires |ss| <= |names|
    ensures UpdateSamples(m, names, ss).Keys == m.Keys + Prefix(names, |ss|)
    decreases |ss|
  {
    if |ss| > 0 {
      var n := |ss| - 1;
      UpdateSamplesKeys(m, names, ss[..n]);
      assert Prefix(names, |ss|) == Prefix(names, n) + {names[n]};
    }
  }

  /** A key no pair names keeps its value. */
  lemma {:induction false} UpdateSamplesUntouched(m: map<string, Sample>, names: seq<string>, ss: seq<Sample>, key: string)
    requires |ss| <= |names| && key in m && key !in names[..|ss|]
    ensures key in UpdateSamples(m, names, ss) && UpdateSamples(m, names, ss)[key] == m[key]
    decreases |ss|
  {
    if |ss| > 0 {
      var n := |ss| - 1;
      assert names[..|ss|] == names[..n] + [names[n]];
      UpdateSamplesUntouched(m, names, ss[..n], key);
    }
  }

  /** The `j`-th name maps to the `j`-th sample when no later pair names it again. */
  lemma {:induction false} UpdateSamplesAt(m: map<string, Sample>, names: seq<string>, ss: seq<Sample>, j: nat)
    requires j < |ss| <= |names|
    requires forall t :: j < t < |ss| ==> names[t] != names[j]
    ensures names[j] in UpdateSamples(m, names, ss) && UpdateSamples(m, names, ss)[names[j]] == ss[j]
    decreases |ss|
  {
    var n := |ss| - 1;
    if j < n {
      UpdateSamplesAt(m, names, ss[..n], j);
    }
  }

  /** Keys the pairs do not name keep their values, and with distinct names
      every name maps to its own sample. */
  lemma UpdateSamplesMeaning(m: map<string, Sample>, names: seq<string>, ss: seq<Sample>)
    requires |ss| <= |names|
    ensures UpdateSamples(m, names, ss).Keys == m.Keys + Prefix(names, |ss|)
    ensures forall key :: key in m && key !in names[..|ss|] ==> UpdateSamples(m, names, ss)[key] == m[key]
    ensures (forall j, j' :: 0 <= j < j' < |ss| ==> names[j] != names[j']) ==>
      forall j :: 0 <= j < |ss| ==> UpdateSamples(m, names, ss)[names[j]] == ss[j]
  {
    UpdateSamplesKeys(m, names, ss);
    forall key | key in m && key !in names[..|ss|] ensures UpdateSamples(m, names, ss)[key] == m[key] {
      UpdateSamplesUntouched(m, names, ss, key);
    }
    if forall j, j' :: 0 <= j < j' < |ss| ==> names[j] != names[j'] {
      forall j | 0 <= j < |ss| ensures UpdateSamples(m, names, ss)[names[j]] == ss[j] {
        UpdateSamplesAt(m, names, ss, j);
      }
    }
  }

  /** Why member `k` of the group fails, if it does: a genotype that cannot
      be rewritten, or more samples than its input has names. */
  function MemberError(group: Group, files: seq<string>, names: seq<seq<string>>, k: nat): Option<Exc>
    requires k < |group| && Indexed(group, files, names)
  {
    var rec := group[k].1;
    match RewriteSamples(rec.samples, [rec.ref] + rec.alt)
    case Err(e) => Some(e)
    case Ok(rewritten) => if |rewritten| > |names[group[k].0]| then Some(IndexError) else None
  }

  /** The first failure among the first `n` members, in group order. */
  function FoldError(group: Group, files: seq<string>, names: seq<seq<string>>, n: nat): Option<Exc>
    requires n <= |group| && Indexed(group, files, names)
  {
    if n == 0 then None
    else
      match FoldError(group, files, names, n - 1)
      case Some(e) => Some(e)
      case None => MemberError(group, files, names, n - 1)
  }

  lemma {:induction false} FoldErrorSticky(group: Group, files: seq<string>, names: seq<seq<string>>, n: nat, m: nat)
    requires n <= m <= |group| && Indexed(group, files, names) && FoldError(group, files, names, n).Some?
    ensures FoldError(group, files, names, m) == FoldError(group, files, names, n)
    decreases m - n
  {
    if n < m {
      FoldErrorSticky(group, files, names, n, m - 1);
    }
  }

  /** `IDs`, `QUALs`, `FILTERs` and `INFOs`, keyed by file name. */
  datatype Columns = Columns(
    ids: map<string, string>,
    quals: map<string, Float>,
    filters: map<string, string>,
    infos: map<string, map<string, Value>>)

  /** The four per-file maps after the first `n` members: a later member
      with the same file name overwrites. */
  function ColumnsOf(group: Group, files: seq<string>, names: seq<seq<string>>, n: nat): Columns
    requires n <= |group| && Indexed(group, files, names)
  {
    if n == 0 then Columns(map[], map[], map[], map[])
    else
      var c := ColumnsOf(group, files, names, n - 1);
      var f := files[group[n - 1].0];
      var rec := group[n - 1].1;
      Columns(c.ids[f := rec.id], c.quals[f := rec.qual], c.filters[f := rec.filter], c.infos[f := rec.info])
  }

  /** The member's samples with their GT rewritten. */
  function Rewritten(group: Group, files: seq<string>, names: seq<seq<string>>, k: nat): (ss: seq<Sample>)
    requires k < |group| && Indexed(group, files, names) && MemberError(group, files, names, k).None?
    ensures |ss| == |group[k].1.samples| <= |names[group[k].0]|
  {
    var rec := group[k].1;
    RewriteSamplesMeaning(rec.samples, [rec.ref] + rec.alt);
    RewriteSamples(rec.samples, [rec.ref] + rec.alt).value
  }

  /** `samples` after the first `n` members, when none of them fails. */
  function SamplesOf(group: Group, files: seq<string>, names: seq<seq<string>>, n: nat): map<string, Sample>
    requires n <= |group| && Indexed(group, files, names) && FoldError(group, files, names, n).None?
  {
    if n == 0 then map[]
    else UpdateSamples(SamplesOf(group, files, names, n - 1), names[group[n - 1].0], Rewritten(group, files, names, n - 1))
  }

  predicate RefsAgree(group: Group)
  {
    forall k :: 0 <= k < |group| ==> group[k].1.ref == group[0].1.ref
  }

  /** The group's input indices address the file names and sample names. */
  predicate Indexed(group: Group, files: seq<string>, names: seq<seq<string>>)
  {
    forall k :: 0 <= k < |group| ==> group[k].0 < |files| && group[k].0 < |names|
  }

  /** `merge_records(multirecord, vcf_filenames, sample_names)`. An empty
      group fails at `multirecord[0]`. */
  function MergeSpec(group: Group, files: seq<string>, names: seq<seq<string>>): Result<Doc>
    requires Indexed(group, files, names)
  {
    if |group| == 0 then Err(IndexError)
    else if !RefsAgree(group) then Err(AssertionError(RefMismatch))
    else
      match FoldError(group, files, names, |group|)
      case Some(e) => Err(e)
      case None =>
        var first := group[0].1;
        var c := ColumnsOf(group, files, names, |group|);
        Ok(Doc(DocId(first.chrom, first.pos), first.chrom, first.pos, first.ref,
               c.ids, c.quals, c.filters, c.infos, SamplesOf(group, files, names, |group|)))
  }

  /** `merge_records`: the REF check over the group, then the loop that puts
      REF in front of each record's ALT, rewrites its samples' GT and fills
      the per-file maps and the sample map. */
  method MergeRecords(group: Group, files: seq<string>, names: seq<seq<string>>) returns (r: Result<Doc>)
    requires Indexed(group, files, names)
    ensures r == MergeSpec(group, files, names)
  {
    if |group| == 0 {
      return Err(IndexError);
    }
    var agree := CheckRefs(group);
    if !agree {
      return Err(AssertionError(RefMismatch));
    }
    var err, c, samples := FoldMembers(group, files, names);
    if err.Some? {
      return Err(err.value);
    }
    var first := group[0].1;
    r := Ok(Doc(DocId(first.chrom, first.pos), first.chrom, first.pos, first.ref,
                c.ids, c.quals, c.filters, c.infos, samples));
  }

  /** `assert rec.REF == multirecord[0].REF` over the whole group. */
  method CheckRefs(group: Group) returns (agree: bool)
    requires |group| > 0
    ensures agree <==> RefsAgree(group)
  {
    var k := 0;
    while k < |group|
      invariant k <= |group|
      invariant forall j :: 0 <= j < k ==> group[j].1.ref == group[0].1.ref
    {
      if group[k].1.ref != group[0].1.ref {
        return false;
      }
      k := k + 1;
    }
    return true;
  }

  /** The loop over the members: rewrite each one's samples and store its
      columns under its file name, stopping at the first failure. */
  method FoldMembers(group: Group, files: seq<string>, names: seq<seq<string>>)
    returns (err: Option<Exc>, c: Columns, samples: map<string, Sample>)
    requires Indexed(group, files, names)
    ensures err == FoldError(group, files, names, |group|)
    ensures err.None? ==> c == ColumnsOf(group, files, names, |group|) && samples == SamplesOf(group, files, names, |group|)
  {
    c := Columns(map[], map[], map[], map[]);
    samples := map[];
    var n := 0;
    while n < |group|
      invariant n <= |group|
      invariant FoldError(group, files, names, n).None?
      invariant c == ColumnsOf(group, files, names, n)
      invariant samples == SamplesOf(group, files, names, n)
    {
      var (i, rec) := group[n];
      var rewritten := RewriteRecordSamples(rec.samples, [rec.ref] + rec.alt);
      if rewritten.Err? {
        FoldErrorSticky(group, files, names, n + 1, |group|);
        return Some(rewritten.error), c, samples;
      }
      if |rewritten.value| > |names[i]| {
        FoldErrorSticky(group, files, names, n + 1, |group|);
        return Some(IndexError), c, samples;
      }
      c := Columns(c.ids[files[i] := rec.id], c.quals[files[i] := rec.qual],
                   c.filters[files[i] := rec.filter], c.infos[files[i] := rec.info]);
      samples := UpdateSamples(samples, names[i], rewritten.value);
      n := n + 1;
    }
    err := None;
  }

  // ---------------------------------------------------------------------------
  // What a merged document holds
  // ---------------------------------------------------------------------------

  /** The file names of the first `n` members. */
  function FilesOf(group: Group, files: seq<string>, names: seq<seq<string>>, n: nat): set<string>
    requires n <= |group| && Indexed(group, files, names)
  {
    set k | 0 <= k < n :: files[group[k].0]
  }

  /** The sample names of the first `n` members' samples. */
  function NamesOf(group: Group, files: seq<string>, names: seq<seq<string>>, n: nat): set<string>
    requires n <= |group| && Indexed(group, files, names)
  {
    set k, j | 0 <= k < n && 0 <= j < |group[k].1.samples| && j < |names[group[k].0]| :: names[group[k].0][j]
  }

  /** No two members of the group come from inputs with the same file name. */
  predicate DistinctFiles(group: Group, files: seq<string>, names: seq<seq<string>>)
    requires Indexed(group, files, names)
  {
    forall k, k' :: 0 <= k < k' < |group| ==> files[group[k].0] != files[group[k'].0]
  }

  /** No sample name occurs twice among the members' inputs. */
  predicate DistinctNames(group: Group, files: seq<string>, names: seq<seq<string>>)
    requires Indexed(group, files, names)
  {
    forall k, j, k', j' ::
      0 <= k < |group| && 0 <= k' < |group| && 0 <= j < |names[group[k].0]| && 0 <= j' < |names[group[k'].0]|
      && (k != k' || j != j')
      ==> names[group[k].0][j] != names[group[k'].0][j']
  }

  /** The per-file maps have exactly the members' file names as keys. */
  lemma {:induction false} ColumnsKeys(group: Group, files: seq<string>, names: seq<seq<string>>, n: nat)
    requires n <= |group| && Indexed(group, files, names)
    ensures var c := ColumnsOf(group, files, names, n);
      c.ids.Keys == FilesOf(group, files, names, n) && c.quals.Keys == c.ids.Keys
      && c.filters.Keys == c.ids.Keys && c.infos.Keys == c.ids.Keys
  {
    if n > 0 {
      ColumnsKeys(group, files, names, n - 1);
      assert FilesOf(group, files, names, n) == FilesOf(group, files, names, n - 1) + {files[group[n - 1].0]};
    }
  }

  /** With distinct file names, member `k`'s ID, QUAL, FILTER and INFO sit
      under its own file name. */
  lemma {:induction false} ColumnsEntry(group: Group, files: seq<string>, names: seq<seq<string>>, n: nat, k: nat)
    requires k < n <= |group| && Indexed(group, files, names) && DistinctFiles(group, files, names)
    ensures var c := ColumnsOf(group, files, names, n);
      var f := files[group[k].0];
      f in c.ids && c.ids[f] == group[k].1.id && f in c.quals && c.quals[f] == group[k].1.qual
      && f in c.filters && c.filters[f] == group[k].1.filter && f in c.infos && c.infos[f] == group[k].1.info
  {
    if k < n - 1 {
      ColumnsEntry(group, files, names, n - 1, k);
      assert files[group[k].0] != files[group[n - 1].0];
    }
  }

  lemma NamesOfStep(group: Group, files: seq<string>, names: seq<seq<string>>, n: nat)
    requires 0 < n <= |group| && Indexed(group, files, names)
    requires |group[n - 1].1.samples| <= |names[group[n - 1].0]|
    ensures NamesOf(group, files, names, n)
         == NamesOf(group, files, names, n - 1) + Prefix(names[group[n - 1].0], |group[n - 1].1.samples|)
  {
    var i := group[n - 1].0;
    var added := Prefix(names[i], |group[n - 1].1.samples|);
    forall x | x in NamesOf(group, files, names, n) ensures x in NamesOf(group, files, names, n - 1) + added {
      var k, j :| 0 <= k < n && 0 <= j < |group[k].1.samples| && j < |names[group[k].0]| && x == names[group[k].0][j];
      if k < n - 1 {
        assert x in NamesOf(group, files, names, n - 1);
      }
    }
  }

  /** `samples` has exactly the members' sample names as keys. */
  lemma {:induction false} SamplesKeys(group: Group, files: seq<string>, names: seq<seq<string>>, n: nat)
    requires n <= |group| && Indexed(group, files, names) && FoldError(group, files, names, n).None?
    ensures SamplesOf(group, files, names, n).Keys == NamesOf(group, files, names, n)
  {
    if n > 0 {
      SamplesKeys(group, files, names, n - 1);
      var i := group[n - 1].0;
      UpdateSamplesKeys(SamplesOf(group, files, names, n - 1), names[i], Rewritten(group, files, names, n - 1));
      NamesOfStep(group, files, names, n);
    }
  }

  /** With distinct sample names, the j-th sample of member `k` sits under the
      j-th sample name of its input, with its GT rewritten. */
  lemma {:induction false} SamplesEntry(group: Group, files: seq<string>, names: seq<seq<string>>, n: nat, k: nat, j: nat)
    requires k < n <= |group| && Indexed(group, files, names) && FoldError(group, files, names, n).None?
    requires DistinctNames(group, files, names) && j < |group[k].1.samples|
    ensures FoldError(group, files, names, k).None? && MemberError(group, files, names, k).None?
    ensures j < |names[group[k].0]| && names[group[k].0][j] in SamplesOf(group, files, names, n)
    ensures SamplesOf(group, files, names, n)[names[group[k].0][j]] == Rewritten(group, files, names, k)[j]
  {
    var i := group[n - 1].0;
    var rewritten := Rewritten(group, files, names, n - 1);
    if k < n - 1 {
      SamplesEntry(group, files, names, n - 1, k, j);
      var key := names[group[k].0][j];
      assert key !in names[i][..|rewritten|] by {
        forall t | 0 <= t < |rewritten| ensures names[i][..|rewritten|][t] != key {
          assert names[group[n - 1].0][t] != names[group[k].0][j];
        }
      }
      UpdateSamplesUntouched(SamplesOf(group, files, names, n - 1), names[i], rewritten, key);
    } else {
      forall t | j < t < |rewritten| ensures names[i][t] != names[i][j] {
        assert names[group[n - 1].0][t] != names[group[n - 1].0][j];
      }
      UpdateSamplesAt(SamplesOf(group, files, names, n - 1), names[i], rewritten, j);
    }
  }

  /** The GT rewrite of one sample, read through `Rewritten`. */
  lemma RewrittenAt(group: Group, files: seq<string>, names: seq<seq<string>>, k: nat, j: nat)
    requires k < |group| && Indexed(group, files, names) && MemberError(group, files, names, k).None?
    requires j < |group[k].1.samples|
    ensures var rec := group[k].1;
      RewriteSample(rec.samples[j], [rec.ref] + rec.alt).Ok?
      && Rewritten(group, files, names, k)[j] == RewriteSample(rec.samples[j], [rec.ref] + rec.alt).value
  {
    var rec := group[k].1;
    RewriteSamplesMeaning(rec.samples, [rec.ref] + rec.alt);
  }

  /** A merged document: id, CHROM, POS and REF come from the first member;
      `IDs`, `QUALs`, `FILTERs` and `INFOs` have one entry per member, under
      the member's file name; `samples` maps each member's sample names to
      its samples, GT rewritten. */
  lemma MergeDocument(group: Group, files: seq<string>, names: seq<seq<string>>)
    requires Indexed(group, files, names) && MergeSpec(group, files, names).Ok?
    ensures var d := MergeSpec(group, files, names).value;
      |group| > 0 && RefsAgree(group)
      && d.id == DocId(group[0].1.chrom, group[0].1.pos) && d.chrom == group[0].1.chrom
      && d.pos == group[0].1.pos && d.ref == group[0].1.ref
      && d.ids.Keys == FilesOf(group, files, names, |group|) && d.quals.Keys == d.ids.Keys
      && d.filters.Keys == d.ids.Keys && d.infos.Keys == d.ids.Keys
      && d.samples.Keys == NamesOf(group, files, names, |group|)
  {
    ColumnsKeys(group, files, names, |group|);
    SamplesKeys(group, files, names, |group|);
  }

  /** Member `k`'s ID, QUAL, FILTER and INFO are in `d` under its file name. */
  predicate ColumnsStored(d: Doc, group: Group, files: seq<string>, k: nat)
  {
    k < |group| && group[k].0 < |files|
    && var f := files[group[k].0];
    f in d.ids && d.ids[f] == group[k].1.id && f in d.quals && d.quals[f] == group[k].1.qual
    && f in d.filters && d.filters[f] == group[k].1.filter && f in d.infos && d.infos[f] == group[k].1.info
  }

  /** The `j`-th sample of member `k`, GT rewritten, is in `d` under the
      `j`-th sample name of its file. */
  predicate SampleStored(d: Doc, group: Group, names: seq<seq<string>>, k: nat, j: nat)
  {
    k < |group| && group[k].0 < |names| && j < |group[k].1.samples|
    && var rec := group[k].1;
    j < |names[group[k].0]| && names[group[k].0][j] in d.samples
    && RewriteSample(rec.samples[j], [rec.ref] + rec.alt).Ok?
    && d.samples[names[group[k].0][j]] == RewriteSample(rec.samples[j], [rec.ref] + rec.alt).value
  }

  /** Member `k`'s ID, QUAL, FILTER and INFO are stored under its file name,
      when the group's file names are distinct. */
  lemma MergeColumnsAt(group: Group, files: seq<string>, names: seq<seq<string>>, k: nat)
    requires Indexed(group, files, names) && MergeSpec(group, files, names).Ok?
    requires DistinctFiles(group, files, names) && k < |group|
    ensures ColumnsStored(MergeSpec(group, files, names).value, group, files, k)
  {
    ColumnsEntry(group, files, names, |group|, k);
  }

  /** The `j`-th sample of member `k` is stored, GT rewritten, under the `j`-th
      sample name of its file, when the group's sample names are distinct. */
  lemma MergeSampleAt(group: Group, files: seq<string>, names: seq<seq<string>>, k: nat, j: nat)
    requires Indexed(group, files, names) && MergeSpec(group, files, names).Ok?
    requires DistinctNames(group, files, names) && k < |group| && j < |group[k].1.samples|
    ensures SampleStored(MergeSpec(group, files, names).value, group, names, k, j)
  {
    var n := |group|;
    assert FoldError(group, files, names, n).None?;
    assert MergeSpec(group, files, names).value.samples == SamplesOf(group, files, names, n);
    SamplesEntry(group, files, names, n, k, j);
    RewrittenAt(group, files, names, k, j);
  }

  /** With distinct file names and distinct sample names, every member's
      columns and samples are in the merged document. */
  lemma MergeEntries(group: Group, files: seq<string>, names: seq<seq<string>>)
    requires Indexed(group, files, names) && MergeSpec(group, files, names).Ok?
    ensures var d := MergeSpec(group, files, names).value;
      (DistinctFiles(group, files, names) ==> forall k :: 0 <= k < |group| ==> ColumnsStored(d, group, files, k))
      && (DistinctNames(group, files, names) ==> forall k, j :: 0 <= k < |group| && 0 <= j < |group[k].1.samples| ==>
            SampleStored(d, group, names, k, j))
  {
    var d := MergeSpec(group, files, names).value;
    if DistinctFiles(group, files, names) {
      forall k | 0 <= k < |group| ensures ColumnsStored(d, group, files, k) {
        MergeColumnsAt(group, files, names, k);
      }
    }
    if DistinctNames(group, files, names) {
      forall k, j | 0 <= k < |group| && 0 <= j < |group[k].1.samples| ensures SampleStored(d, group, names, k, j) {
        MergeSampleAt(group, files, names, k, j);
      }
    }
  }

  lemma RewriteSampleErrors(s: Sample, alleles: seq<string>)
    requires RewriteSample(s, alleles).Err?
    ensures RewriteSample(s, alleles).error in {ValueError, IndexError, TypeError}
  {
    if "GT" in s && s["GT"].One? && s["GT"].a.Str? {
      var gt := s["GT"].a.s;
      var pieces := SplitAlleles(gt);
      RewritePiecesMeaning(pieces, alleles);
      var k :| 0 <= k < |pieces| && RewritePiece(pieces[k], alleles).Err?
        && RewriteGt(gt, alleles).error == RewritePiece(pieces[k], alleles).error;
    }
  }

  lemma {:induction false} RewriteSamplesErrors(ss: seq<Sample>, alleles: seq<string>)
    requires RewriteSamples(ss, alleles).Err?
    ensures RewriteSamples(ss, alleles).error in {ValueError, IndexError, TypeError}
    decreases |ss|
  {
    if RewriteSamples(ss[..|ss| - 1], alleles).Err? {
      RewriteSamplesErrors(ss[..|ss| - 1], alleles);
    } else {
      RewriteSampleErrors(ss[|ss| - 1], alleles);
    }
  }

  lemma {:induction false} FoldErrors(group: Group, files: seq<string>, names: seq<seq<string>>, n: nat)
    requires n <= |group| && Indexed(group, files, names) && FoldError(group, files, names, n).Some?
    ensures FoldError(group, files, names, n).value in {ValueError, IndexError, TypeError}
  {
    if FoldError(group, files, names, n - 1).Some? {
      FoldErrors(group, files, names, n - 1);
    } else {
      var rec := group[n - 1].1;
      if RewriteSamples(rec.samples, [rec.ref] + rec.alt).Err? {
        RewriteSamplesErrors(rec.samples, [rec.ref] + rec.alt);
      }
    }
  }

  /** `merge_records` raises IndexError on an empty group, raises the REF
      assertion and builds no document exactly when some member's REF differs
      from the first member's, and otherwise can only fail on a genotype
      (ValueError, IndexError, TypeError) or on a record with more samples
      than its header names (IndexError). */
  lemma MergeFailures(group: Group, files: seq<string>, names: seq<seq<string>>)
    requires Indexed(group, files, names)
    ensures |group| == 0 ==> MergeSpec(group, files, names) == Err(IndexError)
    ensures MergeSpec(group, files, names) == Err(AssertionError(RefMismatch)) <==>
      |group| > 0 && exists k :: 0 <= k < |group| && group[k].1.ref != group[0].1.ref
    ensures MergeSpec(group, files, names).Err? ==>
      MergeSpec(group, files, names).error in {IndexError, ValueError, TypeError, AssertionError(RefMismatch)}
  {
    if |group| > 0 && RefsAgree(group) && FoldError(group, files, names, |group|).Some? {
      FoldErrors(group, files, names, |group|);
    }
  }
}

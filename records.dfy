/** Data lines of a VCF file (`parse_records`, `parse_record_line`,
    `parse_info_field` and `parse_genotype_fields` of vcf_miniparser.py).

    Decoding a line is a pure function of the line and the headers
    (`RecordSpec`); the module-level caches `inferred_infos`,
    `inferred_formats` and `bad_info_fields` are only ever written, so a
    decode also reports which keys it adds to them (`Effects`), including
    the keys added before an exception cut the line short. */
module Records {
  import opened Strings
  import opened VcfTypes
  import opened Fields

  /** The definition recorded for a key that no header declares. */
  const InferredDef := FieldDef(".", "String", "\"### FIELD WAS NOT DEFINED ###\"")

  /** The three module-level dictionaries. `bad_info_fields` maps keys to
      `True` and is kept as a set. */
  class Caches {
    var inferredInfos: map<string, FieldDef>
    var inferredFormats: map<string, FieldDef>
    var badInfoFields: set<string>

    constructor()
      ensures inferredInfos == map[] && inferredFormats == map[] && badInfoFields == {}
    {
      inferredInfos := map[];
      inferredFormats := map[];
      badInfoFields := {};
    }
  }

  /** `if key not in cache: cache[key] = InferredDef` for each key. */
  function AddInferred(m: map<string, FieldDef>, keys: set<string>): map<string, FieldDef>
  {
    map k | k in m.Keys + keys :: if k in m then m[k] else InferredDef
  }

  lemma AddInferredStep(m: map<string, FieldDef>, a: set<string>, key: string)
    ensures AddInferred(m, a + {key})
         == if key in AddInferred(m, a) then AddInferred(m, a) else AddInferred(m, a)[key := InferredDef]
  {
  }

  lemma UnionTwice(s: set<string>, a: set<string>, b: set<string>)
    ensures s + a + b == s + (a + b)
  {
  }

  lemma AddInferredTwice(m: map<string, FieldDef>, a: set<string>, b: set<string>)
    ensures AddInferred(AddInferred(m, a), b) == AddInferred(m, a + b)
  {
  }

  // ---------------------------------------------------------------------------
  // INFO
  // ---------------------------------------------------------------------------

  /** What `parse_info_field` does with one `;`-piece: a piece that does not
      unpack into `key, value` on `=` is a flag; a declared value that fails
      its type is dropped (with `ignore_bad_info`) or raises; every other
      piece, declared or not, is stored as its comma-split text. */
  datatype PieceKind = FlagPiece(key: string) | Dropped(key: string) | Raised(kv: string) | Stored(key: string, text: string)

  function Classify(kv: string, defs: map<string, FieldDef>, ignore: bool): PieceKind
  {
    match Unpack2(Split(kv, '='))
    case Err(_) => FlagPiece(kv)
    case Ok(p) =>
      if p.0 in defs && ParseDefinedField(p.1, defs[p.0]).Err? then
        (if ignore then Dropped(p.0) else Raised(kv))
      else Stored(p.0, p.1)
  }

  function Kinds(pieces: seq<string>, defs: map<string, FieldDef>, ignore: bool): (ks: seq<PieceKind>)
    ensures |ks| == |pieces|
  {
    seq(|pieces|, j requires 0 <= j < |pieces| => Classify(pieces[j], defs, ignore))
  }

  lemma KindAt(pieces: seq<string>, defs: map<string, FieldDef>, ignore: bool, j: nat)
    requires j < |pieces|
    ensures Kinds(pieces, defs, ignore)[j] == Classify(pieces[j], defs, ignore)
  {
  }

  predicate Writes(k: PieceKind) { k.FlagPiece? || k.Stored? }

  function PieceValue(k: PieceKind): Value
    requires Writes(k)
  {
    if k.FlagPiece? then Flag else RawList(k.text)
  }

  /** The decoded map so far, the keys added to `inferred_infos` and to
      `bad_info_fields`, and the exception if one was raised. */
  datatype InfoState = InfoState(fields: map<string, Value>, inferred: set<string>, bad: set<string>, error: Option<Exc>)

  const NoInfo := InfoState(map[], {}, {}, None)

  function InfoStep(s: InfoState, k: PieceKind): InfoState
  {
    if s.error.Some? then s
    else
      match k
      case FlagPiece(key) => s.(fields := s.fields[key := Flag])
      case Dropped(key) => s.(bad := s.bad + {key})
      case Raised(kv) => s.(error := Some(BadInfoField(kv)))
      case Stored(key, t) => s.(fields := s.fields[key := RawList(t)], inferred := s.inferred + {key})
  }

  /** The loop of `parse_info_field` after its first `n` pieces. */
  function InfoFold(kinds: seq<PieceKind>, n: nat): InfoState
    requires n <= |kinds|
  {
    if n == 0 then NoInfo else InfoStep(InfoFold(kinds, n - 1), kinds[n - 1])
  }

  /** `parse_info_field(field, header_infos, ignore_bad_info)`. */
  function InfoSpec(field: string, defs: map<string, FieldDef>, ignore: bool): InfoState
  {
    if field == "." then NoInfo
    else
      var pieces := Split(field, ';');
      InfoFold(Kinds(pieces, defs, ignore), |pieces|)
  }

  function InfoResult(s: InfoState): Result<map<string, Value>>
  {
    if s.error.Some? then Err(s.error.value) else Ok(s.fields)
  }

  lemma {:induction false} InfoErrorSticky(kinds: seq<PieceKind>, k: nat, n: nat)
    requires k <= n <= |kinds|
    requires InfoFold(kinds, k).error.Some?
    ensures InfoFold(kinds, n) == InfoFold(kinds, k)
    decreases n
  {
    if n > k {
      InfoErrorSticky(kinds, k, n - 1);
    }
  }

  predicate FirstRaised(kinds: seq<PieceKind>, j: nat)
    requires j < |kinds|
  {
    kinds[j].Raised? && forall i :: 0 <= i < j ==> !kinds[i].Raised?
  }

  /** An INFO field raises exactly when one of its pieces raises, and then
      reports the first such piece. */
  lemma {:induction false} InfoErrorMeaning(kinds: seq<PieceKind>, n: nat)
    requires n <= |kinds|
    ensures InfoFold(kinds, n).error.None? <==> forall j :: 0 <= j < n ==> !kinds[j].Raised?
    ensures InfoFold(kinds, n).error.Some? ==>
      exists j :: 0 <= j < n && FirstRaised(kinds, j) && InfoFold(kinds, n).error == Some(BadInfoField(kinds[j].kv))
    decreases n
  {
    if n > 0 {
      InfoErrorMeaning(kinds, n - 1);
      if InfoFold(kinds, n - 1).error.None? && kinds[n - 1].Raised? {
        assert FirstRaised(kinds, n - 1);
      }
    }
  }

  /** Without an exception, the INFO map's keys are those of the flag and
      stored pieces; `inferred_infos` gains exactly the stored keys and
      `bad_info_fields` exactly the dropped ones. */
  lemma {:induction false} InfoKeysMeaning(kinds: seq<PieceKind>, n: nat)
    requires n <= |kinds|
    requires InfoFold(kinds, n).error.None?
    ensures InfoFold(kinds, n).fields.Keys == (set j | 0 <= j < n && Writes(kinds[j]) :: kinds[j].key)
    ensures InfoFold(kinds, n).inferred == (set j | 0 <= j < n && kinds[j].Stored? :: kinds[j].key)
    ensures InfoFold(kinds, n).bad == (set j | 0 <= j < n && kinds[j].Dropped? :: kinds[j].key)
    decreases n
  {
    if n > 0 {
      var prev := InfoFold(kinds, n - 1);
      assert prev.error.None?;
      InfoKeysMeaning(kinds, n - 1);
      var last := kinds[n - 1];
      var s := InfoFold(kinds, n);
      assert s.fields.Keys == prev.fields.Keys + (if Writes(last) then {last.key} else {});
      assert s.inferred == prev.inferred + (if last.Stored? then {last.key} else {});
      assert s.bad == prev.bad + (if last.Dropped? then {last.key} else {});
    }
  }

  /** Without an exception, each key written by a piece holds the value of
      the last piece that wrote it: True for a flag, the comma-split text for
      a stored piece. */
  lemma {:induction false} InfoValuesMeaning(kinds: seq<PieceKind>, n: nat, j: nat)
    requires j < n <= |kinds|
    requires InfoFold(kinds, n).error.None?
    requires Writes(kinds[j])
    requires forall i :: j < i < n && Writes(kinds[i]) ==> kinds[i].key != kinds[j].key
    ensures kinds[j].key in InfoFold(kinds, n).fields
    ensures InfoFold(kinds, n).fields[kinds[j].key] == PieceValue(kinds[j])
    decreases n
  {
    assert InfoFold(kinds, n - 1).error.None?;
    if j < n - 1 {
      InfoValuesMeaning(kinds, n - 1, j);
    }
  }

  /** `parse_info_field` on its module caches. */
  method ParseInfoField(field: string, defs: map<string, FieldDef>, ignore: bool, caches: Caches)
    returns (r: Result<map<string, Value>>)
    modifies caches
    ensures var s := InfoSpec(field, defs, ignore);
      r == InfoResult(s)
      && caches.inferredInfos == AddInferred(old(caches.inferredInfos), s.inferred)
      && caches.badInfoFields == old(caches.badInfoFields) + s.bad
      && caches.inferredFormats == old(caches.inferredFormats)
  {
    if field == "." {
      return Ok(map[]);
    }
    r := InfoPieces(Split(field, ';'), defs, ignore, caches);
  }

  /** The loop of `parse_info_field` over the `;`-pieces. */
  method InfoPieces(pieces: seq<string>, defs: map<string, FieldDef>, ignore: bool, caches: Caches)
    returns (r: Result<map<string, Value>>)
    modifies caches
    ensures var s := InfoFold(Kinds(pieces, defs, ignore), |pieces|);
      r == InfoResult(s)
      && InfoCaches(caches, old(caches.inferredInfos), old(caches.badInfoFields), old(caches.inferredFormats), s)
  {
    ghost var kinds := Kinds(pieces, defs, ignore);
    ghost var infos0, bad0, formats0 := caches.inferredInfos, caches.badInfoFields, caches.inferredFormats;
    var fields: map<string, Value> := map[];
    var i := 0;
    while i < |pieces|
      invariant 0 <= i <= |pieces|
      invariant InfoFold(kinds, i).error.None? && InfoFold(kinds, i).fields == fields
      invariant InfoCaches(caches, infos0, bad0, formats0, InfoFold(kinds, i))
    {
      ghost var prev, next := InfoFold(kinds, i), InfoFold(kinds, i + 1);
      InfoFoldStep(kinds, i);
      KindAt(pieces, defs, ignore, i);
      var err;
      fields, err := InfoPiece(pieces[i], defs, ignore, fields, caches, prev, next, infos0, bad0);
      if err.Some? {
        InfoErrorSticky(kinds, i + 1, |pieces|);
        assert InfoFold(kinds, |pieces|) == next;
        return Err(err.value);
      }
      i := i + 1;
    }
    r := Ok(fields);
  }

  /** The caches hold their values from before the INFO field plus what the
      pieces folded into `s` added. */
  ghost predicate InfoCaches(caches: Caches, infos0: map<string, FieldDef>, bad0: set<string>,
                             formats0: map<string, FieldDef>, s: InfoState)
    reads caches
  {
    caches.inferredInfos == AddInferred(infos0, s.inferred)
    && caches.badInfoFields == bad0 + s.bad
    && caches.inferredFormats == formats0
  }

  lemma InfoFoldStep(kinds: seq<PieceKind>, i: nat)
    requires i < |kinds|
    ensures InfoFold(kinds, i + 1) == InfoStep(InfoFold(kinds, i), kinds[i])
  {
  }

  /** One `;`-piece of `parse_info_field`: the map and the caches move from
      the state before the piece to the state after it. */
  method InfoPiece(kv: string, defs: map<string, FieldDef>, ignore: bool, fields: map<string, Value>, caches: Caches,
                   ghost prev: InfoState, ghost next: InfoState, ghost infos0: map<string, FieldDef>, ghost bad0: set<string>)
    returns (fields': map<string, Value>, err: Option<Exc>)
    requires prev.error.None? && prev.fields == fields
    requires next == InfoStep(prev, Classify(kv, defs, ignore))
    requires caches.inferredInfos == AddInferred(infos0, prev.inferred)
    requires caches.badInfoFields == bad0 + prev.bad
    modifies caches
    ensures err == next.error
      && (err.None? ==> fields' == next.fields)
      && caches.inferredInfos == AddInferred(infos0, next.inferred)
      && caches.badInfoFields == bad0 + next.bad
      && caches.inferredFormats == old(caches.inferredFormats)
  {
    fields', err := fields, None;
    var kind := Classify(kv, defs, ignore);
    match kind {
      case FlagPiece(key) =>
        fields' := fields[key := Flag];
      case Dropped(key) =>
        if key !in caches.badInfoFields {
          caches.badInfoFields := caches.badInfoFields + {key};
        }
      case Raised(_) =>
        err := Some(BadInfoField(kv));
      case Stored(key, text) =>
        AddInferredStep(infos0, prev.inferred, key);
        if key !in caches.inferredInfos {
          caches.inferredInfos := caches.inferredInfos[key := InferredDef];
        }
        fields' := fields[key := RawList(text)];
    }
  }

  /** A declared `key=value` piece whose value has the declared type is kept
      as the comma-split text, not as the typed value, and its key is
      recorded as inferred. */
  lemma DeclaredStoredRaw(key: string, value: string, defs: map<string, FieldDef>, ignore: bool)
    requires '=' !in key && '=' !in value
    requires key in defs && ParseDefinedField(value, defs[key]).Ok?
    ensures Classify(key + "=" + value, defs, ignore) == Stored(key, value)
    ensures InfoStep(NoInfo, Stored(key, value)) == InfoState(map[key := RawList(value)], {key}, {}, None)
  {
    assert key + "=" + value == key + ['='] + value;
    SplitAfterPiece(key, value, '=');
    SplitWithoutSeparator(value, '=');
  }

  /** A declared value that fails its type is dropped and recorded with
      `ignore_bad_info`, and raises `BadInfoField` without it. */
  lemma DeclaredBadValue(key: string, value: string, defs: map<string, FieldDef>)
    requires '=' !in key && '=' !in value
    requires key in defs && ParseDefinedField(value, defs[key]).Err?
    ensures Classify(key + "=" + value, defs, true) == Dropped(key)
    ensures Classify(key + "=" + value, defs, false) == Raised(key + "=" + value)
  {
    assert key + "=" + value == key + ['='] + value;
    SplitAfterPiece(key, value, '=');
    SplitWithoutSeparator(value, '=');
  }

  /** A piece without `=` is a flag, whatever the headers. */
  lemma FlagPieces(kv: string, defs: map<string, FieldDef>, ignore: bool)
    requires '=' !in kv
    ensures Classify(kv, defs, ignore) == FlagPiece(kv)
  {
    SplitWithoutSeparator(kv, '=');
  }

  // ---------------------------------------------------------------------------
  // Genotype columns
  // ---------------------------------------------------------------------------

  /** One genotype value: typed under its FORMAT declaration (a type error
      propagates), or comma-split when undeclared. */
  function DecodeFormat(key: string, text: string, formats: map<string, FieldDef>): Result<Value>
  {
    if key in formats then ParseDefinedField(text, formats[key]) else Ok(RawList(text))
  }

  function Decoded(names: seq<string>, values: seq<string>, formats: map<string, FieldDef>): (d: seq<Result<Value>>)
    requires |values| <= |names|
    ensures |d| == |values|
    ensures forall i :: 0 <= i < |values| ==> d[i] == DecodeFormat(names[i], values[i], formats)
  {
    seq(|values|, i requires 0 <= i < |values| => DecodeFormat(names[i], values[i], formats))
  }

  datatype SampleState = SampleState(fields: map<string, Value>, inferred: set<string>, error: Option<Exc>)

  /** The map of one sample after its first `n` values, given each value's
      decoding. */
  function SampleFold(names: seq<string>, decoded: seq<Result<Value>>, formats: map<string, FieldDef>, n: nat): SampleState
    requires n <= |decoded| <= |names|
  {
    if n == 0 then SampleState(map[], {}, None)
    else
      var prev := SampleFold(names, decoded, formats, n - 1);
      if prev.error.Some? then prev
      else
        match decoded[n - 1]
        case Err(e) => prev.(error := Some(e))
        case Ok(v) =>
          prev.(fields := prev.fields[names[n - 1] := v],
                inferred := if names[n - 1] in formats then prev.inferred else prev.inferred + {names[n - 1]})
  }

  function SampleSpec(names: seq<string>, column: string, formats: map<string, FieldDef>): SampleState
    requires |Split(column, ':')| <= |names|
  {
    var values := Split(column, ':');
    SampleFold(names, Decoded(names, values, formats), formats, |values|)
  }

  /** What happens to one sample column: the assertion on its number of
      values fails, or its values are decoded. */
  datatype ColumnOutcome = TooMany | Fits(sample: SampleState)

  function ColumnSpec(names: seq<string>, column: string, formats: map<string, FieldDef>): ColumnOutcome
    requires |names| >= 1
  {
    var values := Split(column, ':');
    var firstIsGT := if names[0] == "GT" then 1 else 0;
    if !(firstIsGT <= |values| <= |names|) then TooMany
    else Fits(SampleSpec(names, column, formats))
  }

  function Columns(names: seq<string>, columns: seq<string>, formats: map<string, FieldDef>): (outs: seq<ColumnOutcome>)
    requires |names| >= 1
    ensures |outs| == |columns|
    ensures forall k :: 0 <= k < |columns| ==> outs[k] == ColumnSpec(names, columns[k], formats)
  {
    seq(|columns|, k requires 0 <= k < |columns| => ColumnSpec(names, columns[k], formats))
  }

  datatype GenoState = GenoState(samples: seq<map<string, Value>>, inferred: set<string>, error: Option<Exc>)

  /** The loop over the sample columns after its first `m` columns. */
  function GenoFold(outs: seq<ColumnOutcome>, m: nat): GenoState
    requires m <= |outs|
  {
    if m == 0 then GenoState([], {}, None)
    else
      var prev := GenoFold(outs, m - 1);
      if prev.error.Some? then prev
      else
        match outs[m - 1]
        case TooMany => prev.(error := Some(AssertionError(TooManyGenotypeValues)))
        case Fits(s) =>
          GenoState(if s.error.None? then prev.samples + [s.fields] else prev.samples,
                    prev.inferred + s.inferred, s.error)
  }

  /** `parse_genotype_fields(format_field, samples, header_formats)`. The
      `num_fields == 0` early return cannot happen: a split is never empty. */
  function GenotypeSpec(format: string, columns: seq<string>, formats: map<string, FieldDef>): GenoState
  {
    GenoFold(Columns(Split(format, ':'), columns, formats), |columns|)
  }

  function GenoResult(g: GenoState): Result<seq<map<string, Value>>>
  {
    if g.error.Some? then Err(g.error.value) else Ok(g.samples)
  }

  lemma {:induction false} SampleErrorSticky(names: seq<string>, decoded: seq<Result<Value>>, formats: map<string, FieldDef>, k: nat, n: nat)
    requires k <= n <= |decoded| <= |names|
    requires SampleFold(names, decoded, formats, k).error.Some?
    ensures SampleFold(names, decoded, formats, n) == SampleFold(names, decoded, formats, k)
    decreases n
  {
    if n > k {
      SampleErrorSticky(names, decoded, formats, k, n - 1);
    }
  }

  /** One sample's map: it fails exactly when one of its values fails to
      decode, with that value's error; otherwise its keys are the first `n`
      FORMAT names, each holding the decoding at the last position that
      carries it, and exactly the undeclared names used are inferred. */
  lemma {:induction false} SampleMeaning(names: seq<string>, decoded: seq<Result<Value>>, formats: map<string, FieldDef>, n: nat)
    requires n <= |decoded| <= |names|
    ensures var s := SampleFold(names, decoded, formats, n);
      (s.error.None? <==> forall i :: 0 <= i < n ==> decoded[i].Ok?)
      && (s.error.Some? ==> exists i :: 0 <= i < n && decoded[i].Err? && s.error == Some(decoded[i].error))
    ensures var s := SampleFold(names, decoded, formats, n);
      s.error.None? ==>
        s.fields.Keys == (set i | 0 <= i < n :: names[i])
        && s.inferred == (set i | 0 <= i < n && names[i] !in formats :: names[i])
    decreases n
  {
    if n > 0 {
      SampleMeaning(names, decoded, formats, n - 1);
      var prev := SampleFold(names, decoded, formats, n - 1);
      var s := SampleFold(names, decoded, formats, n);
      if prev.error.None? && decoded[n - 1].Ok? {
        assert s.fields.Keys == prev.fields.Keys + {names[n - 1]};
        assert s.inferred == prev.inferred + (if names[n - 1] in formats then {} else {names[n - 1]});
      }
    }
  }

  /** Each FORMAT name of a decoded sample holds the decoding of the last
      value that carries it. */
  lemma {:induction false} SampleValues(names: seq<string>, decoded: seq<Result<Value>>, formats: map<string, FieldDef>, n: nat, i: nat)
    requires i < n <= |decoded| <= |names|
    requires SampleFold(names, decoded, formats, n).error.None?
    requires forall j :: i < j < n ==> names[j] != names[i]
    ensures names[i] in SampleFold(names, decoded, formats, n).fields
    ensures decoded[i].Ok? && SampleFold(names, decoded, formats, n).fields[names[i]] == decoded[i].value
    decreases n
  {
    assert SampleFold(names, decoded, formats, n - 1).error.None?;
    if i < n - 1 {
      SampleValues(names, decoded, formats, n - 1, i);
    }
  }

  lemma {:induction false} GenoErrorSticky(outs: seq<ColumnOutcome>, k: nat, m: nat)
    requires k <= m <= |outs|
    requires GenoFold(outs, k).error.Some?
    ensures GenoFold(outs, m) == GenoFold(outs, k)
    decreases m
  {
    if m > k {
      GenoErrorSticky(outs, k, m - 1);
    }
  }

  /** The assertion's lower bound always holds: a column has at least one
      value. */
  lemma ColumnOutcomeCases(names: seq<string>, column: string, formats: map<string, FieldDef>)
    requires |names| >= 1
    ensures ColumnSpec(names, column, formats).TooMany? <==> !ColumnFits(names, column)
  {
  }

  predicate ColumnFits(names: seq<string>, column: string)
  {
    |Split(column, ':')| <= |names|
  }

  /** The genotype columns fail exactly when some column has more
      `:`-values than FORMAT names or holds a value that fails to decode,
      and then with an assertion error or with that value's error. */
  lemma {:induction false} GenoErrorMeaning(outs: seq<ColumnOutcome>, m: nat)
    requires m <= |outs|
    ensures GenoFold(outs, m).error.None? <==>
      forall k :: 0 <= k < m ==> outs[k].Fits? && outs[k].sample.error.None?
    ensures GenoFold(outs, m).error.Some? ==>
      GenoFold(outs, m).error == Some(AssertionError(TooManyGenotypeValues))
      || exists k :: 0 <= k < m && outs[k].Fits? && GenoFold(outs, m).error == outs[k].sample.error
    decreases m
  {
    if m > 0 {
      GenoErrorMeaning(outs, m - 1);
    }
  }

  /** Without an exception there is one map per sample column, in order,
      each the decoding of that column alone, and the inferred FORMAT keys
      are those of the columns together. */
  lemma {:induction false} GenoSamplesMeaning(outs: seq<ColumnOutcome>, m: nat)
    requires m <= |outs|
    requires GenoFold(outs, m).error.None?
    ensures |GenoFold(outs, m).samples| == m
    ensures forall k :: 0 <= k < m ==>
      outs[k].Fits? && GenoFold(outs, m).samples[k] == outs[k].sample.fields
    ensures GenoFold(outs, m).inferred
      == (set k, key | 0 <= k < m && outs[k].Fits? && key in outs[k].sample.inferred :: key)
    decreases m
  {
    if m > 0 {
      var prev := GenoFold(outs, m - 1);
      assert prev.error.None?;
      GenoSamplesMeaning(outs, m - 1);
      var g := GenoFold(outs, m);
      assert g.samples == prev.samples + [outs[m - 1].sample.fields];
      assert g.inferred == prev.inferred + outs[m - 1].sample.inferred;
    }
  }

  /** A decoding error of a genotype value is always ValueError. */
  lemma SampleErrorIsValueError(names: seq<string>, column: string, formats: map<string, FieldDef>)
    requires ColumnFits(names, column)
    ensures SampleSpec(names, column, formats).error.Some? ==> SampleSpec(names, column, formats).error == Some(ValueError)
  {
    var values := Split(column, ':');
    var d := Decoded(names, values, formats);
    SampleMeaning(names, d, formats, |values|);
    if SampleSpec(names, column, formats).error.Some? {
      var i :| 0 <= i < |values| && d[i].Err? && SampleSpec(names, column, formats).error == Some(d[i].error);
      assert d[i] == DecodeFormat(names[i], values[i], formats);
    }
  }

  /** The inner loop of `parse_genotype_fields`: one sample column whose
      number of values has passed the assertion. */
  method ParseSample(names: seq<string>, values: seq<string>, formats: map<string, FieldDef>, caches: Caches)
    returns (r: Result<map<string, Value>>)
    requires |values| <= |names|
    modifies caches
    ensures var s := SampleFold(names, Decoded(names, values, formats), formats, |values|);
      r == (if s.error.Some? then Err(s.error.value) else Ok(s.fields))
      && caches.inferredFormats == AddInferred(old(caches.inferredFormats), s.inferred)
      && caches.inferredInfos == old(caches.inferredInfos)
      && caches.badInfoFields == old(caches.badInfoFields)
  {
    ghost var d := Decoded(names, values, formats);
    var fields: map<string, Value> := map[];
    var i := 0;
    while i < |values|
      invariant i <= |values|
      invariant SampleFold(names, d, formats, i).error.None? && SampleFold(names, d, formats, i).fields == fields
      invariant caches.inferredFormats == AddInferred(old(caches.inferredFormats), SampleFold(names, d, formats, i).inferred)
      invariant caches.inferredInfos == old(caches.inferredInfos) && caches.badInfoFields == old(caches.badInfoFields)
    {
      ghost var prev := SampleFold(names, d, formats, i);
      var key := names[i];
      var decoded := DecodeFormat(key, values[i], formats);
      assert d[i] == decoded;
      match decoded {
        case Err(e) =>
          SampleErrorSticky(names, d, formats, i + 1, |values|);
          return Err(e);
        case Ok(v) =>
          if key !in formats {
            AddInferredStep(old(caches.inferredFormats), prev.inferred, key);
            if key !in caches.inferredFormats {
              caches.inferredFormats := caches.inferredFormats[key := InferredDef];
            }
          }
          fields := fields[key := v];
      }
      i := i + 1;
    }
    r := Ok(fields);
  }

  /** `parse_genotype_fields` on its module caches. */
  method ParseGenotypeFields(format: string, columns: seq<string>, formats: map<string, FieldDef>, caches: Caches)
    returns (r: Result<seq<map<string, Value>>>)
    modifies caches
    ensures var g := GenotypeSpec(format, columns, formats);
      r == GenoResult(g)
      && caches.inferredFormats == AddInferred(old(caches.inferredFormats), g.inferred)
      && caches.inferredInfos == old(caches.inferredInfos)
      && caches.badInfoFields == old(caches.badInfoFields)
  {
    var names := Split(format, ':');
    var numFields := |names|;
    var firstIsGT := if names[0] == "GT" then 1 else 0;
    ghost var outs := Columns(names, columns, formats);
    var parsed: seq<map<string, Value>> := [];
    var m := 0;
    while m < |columns|
      invariant m <= |columns|
      invariant GenoFold(outs, m).error.None? && GenoFold(outs, m).samples == parsed
      invariant caches.inferredFormats == AddInferred(old(caches.inferredFormats), GenoFold(outs, m).inferred)
      invariant caches.inferredInfos == old(caches.inferredInfos) && caches.badInfoFields == old(caches.badInfoFields)
    {
      ghost var prev := GenoFold(outs, m);
      var sample := ParseColumn(names, numFields, firstIsGT, columns[m], formats, caches);
      assert outs[m] == ColumnSpec(names, columns[m], formats);
      GenoStep(outs, m);
      AddInferredTwice(old(caches.inferredFormats), prev.inferred, ColumnInferred(outs[m]));
      if sample.Err? {
        GenoErrorSticky(outs, m + 1, |columns|);
        return Err(sample.error);
      }
      parsed := parsed + [sample.value];
      m := m + 1;
    }
    r := Ok(parsed);
  }

  /** What one column contributes to the loop's result and to
      `inferred_formats`. */
  function ColumnResult(o: ColumnOutcome): Result<map<string, Value>>
  {
    match o
    case TooMany => Err(AssertionError(TooManyGenotypeValues))
    case Fits(s) => if s.error.Some? then Err(s.error.value) else Ok(s.fields)
  }

  function ColumnInferred(o: ColumnOutcome): set<string>
  {
    if o.Fits? then o.sample.inferred else {}
  }

  lemma GenoStep(outs: seq<ColumnOutcome>, m: nat)
    requires m < |outs| && GenoFold(outs, m).error.None?
    ensures var prev := GenoFold(outs, m);
      var next := GenoFold(outs, m + 1);
      var c := ColumnResult(outs[m]);
      next.inferred == prev.inferred + ColumnInferred(outs[m])
      && (c.Ok? ==> next.error.None? && next.samples == prev.samples + [c.value])
      && (c.Err? ==> next.error == Some(c.error))
  {
  }

  /** One sample column of `parse_genotype_fields`: the assertion on its
      number of values, then its decoding. */
  method ParseColumn(names: seq<string>, numFields: nat, firstIsGT: nat, column: string,
                     formats: map<string, FieldDef>, caches: Caches)
    returns (r: Result<map<string, Value>>)
    requires |names| >= 1 && numFields == |names| && firstIsGT == (if names[0] == "GT" then 1 else 0)
    modifies caches
    ensures var o := ColumnSpec(names, column, formats);
      r == ColumnResult(o)
      && caches.inferredFormats == AddInferred(old(caches.inferredFormats), ColumnInferred(o))
      && caches.inferredInfos == old(caches.inferredInfos)
      && caches.badInfoFields == old(caches.badInfoFields)
  {
    var values := Split(column, ':');
    if !(firstIsGT <= |values| <= numFields) {
      return Err(AssertionError(TooManyGenotypeValues));
    }
    r := ParseSample(names, values, formats, caches);
  }

  // ---------------------------------------------------------------------------
  // Record lines
  // ---------------------------------------------------------------------------

  /** The keys a decode adds to `inferred_infos`, `bad_info_fields` and
      `inferred_formats`. */
  datatype Effects = Effects(infos: set<string>, bad: set<string>, formats: set<string>)

  const NoEffects := Effects({}, {}, {})

  function Union(a: Effects, b: Effects): Effects
  {
    Effects(a.infos + b.infos, a.bad + b.bad, a.formats + b.formats)
  }

  datatype RecRun = RecRun(result: Result<Record>, effects: Effects)

  /** `parse_record_line(line, headers, ignore_bad_info)`. The columns are
      read in keyword-argument order, so a short line fails with IndexError
      at the first missing column, and INFO is decoded before column 9 is
      looked up. `QUAL` is `float()` of column 6: `.` is not a number. */
  function RecordSpec(line: string, h: Headers, ignore: bool): RecRun
  {
    var f := Split(line, '\t');
    if |f| < 2 then RecRun(Err(IndexError), NoEffects)
    else
      match ParseInt(f[1])
      case None => RecRun(Err(ValueError), NoEffects)
      case Some(pos) =>
        if |f| < 6 then RecRun(Err(IndexError), NoEffects)
        else if !IsFloatLiteral(Strip(f[5])) then RecRun(Err(ValueError), NoEffects)
        else if |f| < 8 then RecRun(Err(IndexError), NoEffects)
        else
          var info := InfoSpec(f[7], h.infos, ignore);
          var infoEffects := Effects(info.inferred, info.bad, {});
          if info.error.Some? then RecRun(Err(info.error.value), infoEffects)
          else if |f| < 9 then RecRun(Err(IndexError), infoEffects)
          else
            var g := GenotypeSpec(f[8], f[9..], h.formats);
            var effects := Effects(info.inferred, info.bad, g.inferred);
            if g.error.Some? then RecRun(Err(g.error.value), effects)
            else RecRun(Ok(Record(f[0], pos, f[2], f[3], Split(f[4], ','), Float(Strip(f[5])), f[6], info.fields, g.samples)),
                        effects)
  }

  /** `parse_record_line` on the module caches. */
  method ParseRecordLine(line: string, h: Headers, ignore: bool, caches: Caches) returns (r: Result<Record>)
    modifies caches
    ensures var run := RecordSpec(line, h, ignore);
      r == run.result
      && caches.inferredInfos == AddInferred(old(caches.inferredInfos), run.effects.infos)
      && caches.badInfoFields == old(caches.badInfoFields) + run.effects.bad
      && caches.inferredFormats == AddInferred(old(caches.inferredFormats), run.effects.formats)
  {
    var fields := Split(line, '\t');
    if |fields| < 2 {
      return Err(IndexError);
    }
    var pos := ParseInt(fields[1]);
    if pos.None? {
      return Err(ValueError);
    }
    if |fields| < 6 {
      return Err(IndexError);
    }
    var qual := Strip(fields[5]);
    if !IsFloatLiteral(qual) {
      return Err(ValueError);
    }
    if |fields| < 8 {
      return Err(IndexError);
    }
    var info := ParseInfoField(fields[7], h.infos, ignore, caches);
    if info.Err? {
      return Err(info.error);
    }
    if |fields| < 9 {
      return Err(IndexError);
    }
    var samples := ParseGenotypeFields(fields[8], fields[9..], h.formats, caches);
    if samples.Err? {
      return Err(samples.error);
    }
    r := Ok(Record(fields[0], pos.value, fields[2], fields[3], Split(fields[4], ','), Float(qual), fields[6],
                   info.value, samples.value));
  }

  /** A decoded record: CHROM, ID, REF and FILTER are the raw columns, POS is
      `int()` of column 2, ALT is column 5 split on commas, QUAL the number
      of column 6; INFO is the decoded INFO column, and there is one sample
      map per column from the tenth on, each decoded on its own. */
  lemma RecordMeaning(line: string, h: Headers, ignore: bool)
    requires RecordSpec(line, h, ignore).result.Ok?
    ensures var f := Split(line, '\t');
      var rec := RecordSpec(line, h, ignore).result.value;
      var names := Split(f[8], ':');
      |f| >= 9
      && rec.chrom == f[0] && ParseInt(f[1]) == Some(rec.pos) && rec.id == f[2] && rec.ref == f[3]
      && rec.alt == Split(f[4], ',') && IsFloatLiteral(rec.qual.literal) && rec.filter == f[6]
      && InfoResult(InfoSpec(f[7], h.infos, ignore)) == Ok(rec.info)
      && var cols := f[9..];
      |rec.samples| == |cols|
      && forall k :: 0 <= k < |cols| ==>
           ColumnFits(names, cols[k]) && rec.samples[k] == SampleSpec(names, cols[k], h.formats).fields
  {
    var f := Split(line, '\t');
    var names := Split(f[8], ':');
    var cols := f[9..];
    var outs := Columns(names, cols, h.formats);
    GenoErrorMeaning(outs, |cols|);
    GenoSamplesMeaning(outs, |cols|);
    forall k | 0 <= k < |cols|
      ensures ColumnFits(names, cols[k])
    {
      ColumnOutcomeCases(names, cols[k], h.formats);
    }
  }

  /** A `.` in the QUAL column makes the line a bad record (ValueError). */
  lemma QualDotIsBad(line: string, h: Headers, ignore: bool)
    requires var f := Split(line, '\t'); |f| >= 6 && ParseInt(f[1]).Some? && f[5] == "."
    ensures RecordSpec(line, h, ignore).result == Err(ValueError)
  {
    // `.` is a mantissa with two empty digit runs
    assert Split(".", '.') == ["", ""];
  }

  /** The line terminator is not stripped: it stays on the last column. */
  lemma NewlineStaysOnLastColumn(s: string)
    ensures var cols := Split(s, '\t');
      var colsNl := Split(s + "\n", '\t');
      |colsNl| == |cols| && colsNl[..|cols| - 1] == cols[..|cols| - 1]
      && colsNl[|cols| - 1] == cols[|cols| - 1] + "\n"
  {
    SplitAppend(s, "\n", '\t');
  }

  // ---------------------------------------------------------------------------
  // parse_records
  // ---------------------------------------------------------------------------

  /** One `next()` on a `parse_records` generator. */
  datatype Pull = Got(record: Record) | Exhausted | Failed(error: Exc)

  /** The outcome of a pull, how many lines it read, and its cache effects. */
  datatype PullOut = PullOut(pull: Pull, consumed: nat, effects: Effects)

  /** How a stream of records ends: the file runs out, or an exception. */
  datatype End = Eof | Halted(error: Exc)

  /** Everything a `parse_records` generator yields, and how it stops. */
  datatype Stream = Stream(records: seq<Record>, end: End)

  /** The loop of `parse_records` up to its next `yield` or exception: a
      ValueError skips the line when `drop_bad_records` is set and becomes
      `BadRecord(line)` otherwise; every other exception propagates. */
  function PullSpec(lines: seq<string>, h: Headers, ignore: bool, drop: bool): (p: PullOut)
    ensures p.consumed <= |lines|
    ensures p.pull.Got? ==> p.consumed >= 1
    decreases |lines|
  {
    if |lines| == 0 then PullOut(Exhausted, 0, NoEffects)
    else
      var run := RecordSpec(lines[0], h, ignore);
      match run.result
      case Ok(rec) => PullOut(Got(rec), 1, run.effects)
      case Err(e) =>
        if e == ValueError && drop then Shift(PullSpec(lines[1..], h, ignore, drop), 1, run.effects)
        else if e == ValueError then PullOut(Failed(BadRecord(lines[0])), 1, run.effects)
        else PullOut(Failed(e), 1, run.effects)
  }

  /** A pull that starts `n` lines later, after lines with effects `e`. */
  function Shift(p: PullOut, n: nat, e: Effects): (q: PullOut)
    ensures q.pull == p.pull && q.consumed == n + p.consumed
  {
    PullOut(p.pull, n + p.consumed, Union(e, p.effects))
  }

  lemma ShiftTwice(p: PullOut, n1: nat, e1: Effects, n2: nat, e2: Effects)
    ensures Shift(Shift(p, n1, e1), n2, e2) == Shift(p, n1 + n2, Union(e2, e1))
  {
  }

  function DecodeStream(lines: seq<string>, h: Headers, ignore: bool, drop: bool): Stream
    decreases |lines|
  {
    var p := PullSpec(lines, h, ignore, drop);
    match p.pull
    case Exhausted => Stream([], Eof)
    case Failed(e) => Stream([], Halted(e))
    case Got(r) =>
      var s := DecodeStream(lines[p.consumed..], h, ignore, drop);
      Stream([r] + s.records, s.end)
  }

  /** A line that does not stop the generator: it decodes, or it raises
      ValueError and bad records are dropped. */
  predicate Passes(line: string, h: Headers, ignore: bool, drop: bool)
  {
    var r := RecordSpec(line, h, ignore).result;
    r.Ok? || (drop && r == Err(ValueError))
  }

  /** The records of the lines that decode, in order. */
  function OkRecords(lines: seq<string>, h: Headers, ignore: bool): seq<Record>
    decreases |lines|
  {
    if |lines| == 0 then []
    else
      var r := RecordSpec(lines[0], h, ignore).result;
      (if r.Ok? then [r.value] else []) + OkRecords(lines[1..], h, ignore)
  }

  lemma ConcatAssoc(a: seq<Record>, b: seq<Record>, c: seq<Record>)
    ensures a + (b + c) == (a + b) + c
  {
  }

  /** A dropped first line is skipped. */
  lemma StreamSkip(lines: seq<string>, h: Headers, ignore: bool, drop: bool)
    requires |lines| > 0 && drop && RecordSpec(lines[0], h, ignore).result == Err(ValueError)
    ensures DecodeStream(lines, h, ignore, drop) == DecodeStream(lines[1..], h, ignore, drop)
  {
    var p := PullSpec(lines, h, ignore, drop);
    var q := PullSpec(lines[1..], h, ignore, drop);
    assert p.pull == q.pull && p.consumed == q.consumed + 1;
    if p.pull.Got? {
      assert lines[p.consumed..] == lines[1..][q.consumed..];
    }
  }

  /** Lines that pass contribute their records in order and do not end the
      stream: after `k` passing lines the stream continues as the stream of
      the rest. */
  lemma {:induction false} StreamPrefix(lines: seq<string>, h: Headers, ignore: bool, drop: bool, k: nat)
    requires k <= |lines|
    requires forall j :: 0 <= j < k ==> Passes(lines[j], h, ignore, drop)
    ensures DecodeStream(lines, h, ignore, drop)
         == Stream(OkRecords(lines[..k], h, ignore) + DecodeStream(lines[k..], h, ignore, drop).records,
                   DecodeStream(lines[k..], h, ignore, drop).end)
    decreases k
  {
    if k == 0 {
      assert lines[0..] == lines;
    } else {
      var rest := lines[1..];
      forall j | 0 <= j < k - 1 ensures Passes(rest[j], h, ignore, drop) {
        assert rest[j] == lines[j + 1];
      }
      StreamPrefix(rest, h, ignore, drop, k - 1);
      assert rest[k - 1..] == lines[k..];
      assert lines[..k][1..] == rest[..k - 1];
      var head := OkRecords(lines[..1], h, ignore);
      var middle := OkRecords(rest[..k - 1], h, ignore);
      var last := DecodeStream(lines[k..], h, ignore, drop);
      assert DecodeStream(rest, h, ignore, drop) == Stream(middle + last.records, last.end);
      StreamFirst(lines, h, ignore, drop);
      OkRecordsFirst(lines[..k], h, ignore);
      assert lines[..k][..1] == lines[..1];
      assert OkRecords(lines[..k], h, ignore) == head + middle;
      ConcatAssoc(head, middle, last.records);
    }
  }

  /** A passing first line contributes its record, if any, ahead of the rest. */
  lemma StreamFirst(lines: seq<string>, h: Headers, ignore: bool, drop: bool)
    requires |lines| > 0 && Passes(lines[0], h, ignore, drop)
    ensures var rest := DecodeStream(lines[1..], h, ignore, drop);
      DecodeStream(lines, h, ignore, drop) == Stream(OkRecords(lines[..1], h, ignore) + rest.records, rest.end)
  {
    var r := RecordSpec(lines[0], h, ignore).result;
    assert lines[..1][1..] == [];
    assert lines[..1][0] == lines[0];
    if r.Err? {
      assert OkRecords(lines[..1], h, ignore) == [];
      StreamSkip(lines, h, ignore, drop);
    } else {
      assert OkRecords(lines[..1], h, ignore) == [r.value];
      assert PullSpec(lines, h, ignore, drop).consumed == 1;
    }
  }

  lemma OkRecordsFirst(lines: seq<string>, h: Headers, ignore: bool)
    requires |lines| > 0
    ensures OkRecords(lines, h, ignore) == OkRecords(lines[..1], h, ignore) + OkRecords(lines[1..], h, ignore)
  {
    assert lines[..1][1..] == [];
  }

  /** `parse_records` yields the decoded records of the passing lines, in
      order. It ends normally when every line passes; otherwise the first
      line that does not pass ends it, with `BadRecord(line)` for a
      ValueError and with its own exception for any other. */
  lemma StreamMeaning(lines: seq<string>, h: Headers, ignore: bool, drop: bool, k: nat)
    requires k <= |lines|
    requires forall j :: 0 <= j < k ==> Passes(lines[j], h, ignore, drop)
    requires k < |lines| ==> !Passes(lines[k], h, ignore, drop)
    ensures DecodeStream(lines, h, ignore, drop).records == OkRecords(lines[..k], h, ignore)
    ensures k == |lines| ==> DecodeStream(lines, h, ignore, drop).end == Eof
    ensures k < |lines| ==>
      var e := RecordSpec(lines[k], h, ignore).result.error;
      DecodeStream(lines, h, ignore, drop).end == Halted(if e == ValueError then BadRecord(lines[k]) else e)
  {
    StreamPrefix(lines, h, ignore, drop, k);
    if k < |lines| {
      assert lines[k..][0] == lines[k];
    }
  }

  /** A pull yields the first record of the stream and leaves the rest of
      it; it reports exhaustion or the stream's exception when no record
      is left. */
  lemma PullAdvancesStream(lines: seq<string>, h: Headers, ignore: bool, drop: bool)
    ensures var st := DecodeStream(lines, h, ignore, drop);
      var out := PullSpec(lines, h, ignore, drop);
      out.pull == (if |st.records| > 0 then Got(st.records[0])
                   else if st.end.Eof? then Exhausted
                   else Failed(st.end.error))
      && (out.pull.Got? ==> DecodeStream(lines[out.consumed..], h, ignore, drop) == Stream(st.records[1..], st.end))
  {
    var st := DecodeStream(lines, h, ignore, drop);
    var out := PullSpec(lines, h, ignore, drop);
    if out.pull.Got? {
      assert st.records == [out.pull.record] + DecodeStream(lines[out.consumed..], h, ignore, drop).records;
    }
  }

  /** Without `drop_bad_records`, a line with no tab-separated QUAL number
      ends the generator with `BadRecord(line)`. */
  lemma QualDotStopsStream(lines: seq<string>, h: Headers, ignore: bool)
    requires |lines| > 0
    requires var f := Split(lines[0], '\t'); |f| >= 6 && ParseInt(f[1]).Some? && f[5] == "."
    ensures DecodeStream(lines, h, ignore, false) == Stream([], Halted(BadRecord(lines[0])))
  {
    QualDotIsBad(lines[0], h, ignore);
  }

  /** A `parse_records` generator over a file's remaining lines. The module
      caches are shared by every generator. */
  class RecordParser {
    var lines: seq<string>
    const headers: Headers
    const ignoreBadInfo: bool
    const dropBadRecords: bool
    const caches: Caches

    constructor(lines: seq<string>, headers: Headers, ignoreBadInfo: bool, dropBadRecords: bool, caches: Caches)
      ensures this.lines == lines && this.headers == headers && this.caches == caches
      ensures this.ignoreBadInfo == ignoreBadInfo && this.dropBadRecords == dropBadRecords
    {
      this.lines := lines;
      this.headers := headers;
      this.ignoreBadInfo := ignoreBadInfo;
      this.dropBadRecords := dropBadRecords;
      this.caches := caches;
    }

    /** What the generator will still yield. */
    ghost function Remaining(): Stream
      reads this
    {
      DecodeStream(lines, headers, ignoreBadInfo, dropBadRecords)
    }

    /** `next(generator, None)`: after an exception the generator is finished. */
    method Next() returns (p: Pull)
      modifies this, caches
      ensures var out := PullSpec(old(lines), headers, ignoreBadInfo, dropBadRecords);
        p == out.pull
        && lines == (if p.Failed? then [] else old(lines)[out.consumed..])
        && caches.inferredInfos == AddInferred(old(caches.inferredInfos), out.effects.infos)
        && caches.badInfoFields == old(caches.badInfoFields) + out.effects.bad
        && caches.inferredFormats == AddInferred(old(caches.inferredFormats), out.effects.formats)
    {
      p, lines := PullLines(lines, headers, ignoreBadInfo, dropBadRecords, caches);
    }
  }

  /** The body of the `parse_records` loop run up to its next `yield` or
      exception, returning the pull and the lines left to the generator. */
  method PullLines(lines: seq<string>, h: Headers, ignore: bool, drop: bool, caches: Caches)
    returns (p: Pull, rest: seq<string>)
    modifies caches
    ensures Pulled(lines, h, ignore, drop, p, rest, caches,
                   old(caches.inferredInfos), old(caches.badInfoFields), old(caches.inferredFormats))
  {
    ghost var infos0, bad0, formats0 := caches.inferredInfos, caches.badInfoFields, caches.inferredFormats;
    var todo := lines;
    ghost var k := 0;
    ghost var acc := NoEffects;
    while |todo| > 0
      invariant k <= |lines| && todo == lines[k..]
      invariant PullSpec(lines, h, ignore, drop) == Shift(PullSpec(todo, h, ignore, drop), k, acc)
      invariant Accounted(caches, infos0, bad0, formats0, acc)
      decreases |todo|
    {
      var line := todo[0];
      ghost var run := RecordSpec(line, h, ignore);
      PullStep(todo, h, ignore, drop);
      todo := todo[1..];
      var r := ParseLineAccounted(line, h, ignore, caches, infos0, bad0, formats0, acc);
      if r.Ok? {
        assert PullSpec(lines, h, ignore, drop) == PullOut(Got(r.value), k + 1, Union(acc, run.effects));
        return Got(r.value), todo;
      }
      if r.error == ValueError && drop {
        ShiftTwice(PullSpec(todo, h, ignore, drop), 1, run.effects, k, acc);
        acc := Union(acc, run.effects);
        k := k + 1;
      } else {
        if r.error == ValueError {
          assert PullSpec(lines, h, ignore, drop) == PullOut(Failed(BadRecord(line)), k + 1, Union(acc, run.effects));
          return Failed(BadRecord(line)), [];
        }
        assert PullSpec(lines, h, ignore, drop) == PullOut(Failed(r.error), k + 1, Union(acc, run.effects));
        return Failed(r.error), [];
      }
    }
    assert PullSpec(lines, h, ignore, drop) == PullOut(Exhausted, k, acc);
    return Exhausted, todo;
  }

  /** A pull returned `p`, left `rest` to the generator, and the caches gained
      the effects of the lines it read: what `PullSpec` says. */
  ghost predicate Pulled(lines: seq<string>, h: Headers, ignore: bool, drop: bool, p: Pull, rest: seq<string>,
                         caches: Caches, infos0: map<string, FieldDef>, bad0: set<string>,
                         formats0: map<string, FieldDef>)
    reads caches
  {
    var out := PullSpec(lines, h, ignore, drop);
    p == out.pull
    && rest == (if p.Failed? then [] else lines[out.consumed..])
    && Accounted(caches, infos0, bad0, formats0, out.effects)
  }

  /** The caches hold their values from before the pull plus the keys of
      the effects `acc`. */
  ghost predicate Accounted(caches: Caches, infos0: map<string, FieldDef>, bad0: set<string>,
                            formats0: map<string, FieldDef>, acc: Effects)
    reads caches
  {
    caches.inferredInfos == AddInferred(infos0, acc.infos)
    && caches.badInfoFields == bad0 + acc.bad
    && caches.inferredFormats == AddInferred(formats0, acc.formats)
  }

  /** The first line of a pull: a record ends it, a dropped line shifts it,
      any other exception ends it with that line's error. */
  lemma PullStep(lines: seq<string>, h: Headers, ignore: bool, drop: bool)
    requires |lines| > 0
    ensures var run := RecordSpec(lines[0], h, ignore);
      var p := PullSpec(lines, h, ignore, drop);
      (run.result.Ok? ==> p == PullOut(Got(run.result.value), 1, run.effects))
      && (run.result.Err? && run.result.error == ValueError && drop ==>
            p == Shift(PullSpec(lines[1..], h, ignore, drop), 1, run.effects))
      && (run.result.Err? && run.result.error == ValueError && !drop ==>
            p == PullOut(Failed(BadRecord(lines[0])), 1, run.effects))
      && (run.result.Err? && run.result.error != ValueError ==>
            p == PullOut(Failed(run.result.error), 1, run.effects))
  {
  }

  /** `parse_record_line` inside the pull loop, its cache effects added to
      those of the lines before it. */
  method ParseLineAccounted(line: string, h: Headers, ignore: bool, caches: Caches,
                            ghost infos0: map<string, FieldDef>, ghost bad0: set<string>,
                            ghost formats0: map<string, FieldDef>, ghost acc: Effects)
    returns (r: Result<Record>)
    requires Accounted(caches, infos0, bad0, formats0, acc)
    modifies caches
    ensures r == RecordSpec(line, h, ignore).result
    ensures Accounted(caches, infos0, bad0, formats0, Union(acc, RecordSpec(line, h, ignore).effects))
  {
    ghost var run := RecordSpec(line, h, ignore);
    r := ParseRecordLine(line, h, ignore, caches);
    AddInferredTwice(infos0, acc.infos, run.effects.infos);
    AddInferredTwice(formats0, acc.formats, run.effects.formats);
    UnionTwice(bad0, acc.bad, run.effects.bad);
  }
}

/** The header block of a VCF file (`parse_headers` and `parse_header_line`
    of vcf_miniparser.py): the `##fileformat` version test, the `##` meta
    lines, and the `#CHROM` column line that names the samples. A file is
    the sequence of its lines, each with its line terminator; reading past
    the end gives `""`, as `readline()` does. */
module VcfHeaders {
  import opened Strings
  import opened VcfTypes

  /** What `parse_headers` returns, plus the lines left for `parse_records`. */
  datatype HeaderBlock = HeaderBlock(headers: Headers, samples: seq<string>, rest: seq<string>)

  function ReadLine(lines: seq<string>, i: nat): string
  {
    if i < |lines| then lines[i] else ""
  }

  predicate SupportedVersion(fileformat: string)
  {
    fileformat == "VCFv4.0" || fileformat == "VCFv4.1" || fileformat == "VCFv4.2"
  }

  /** The `ID=..,Number=..,Type=..,Description=..` body of an `##INFO` or
      `##FORMAT` line: split on the first three commas, then each key checked
      in order; only the Description is split on its first `=` alone. */
  function ParseDecl(sub: string): Result<(string, FieldDef)>
  {
    var kvs :- Unpack4(SplitN(sub, ',', 3));
    DeclFields(kvs.0, kvs.1, kvs.2, kvs.3)
  }

  function DeclFields(idkv: string, numkv: string, typekv: string, desckv: string): Result<(string, FieldDef)>
  {
    var idp :- Unpack2(Split(idkv, '='));
    if idp.0 != "ID" then Err(AssertionError(DeclarationKey)) else
    var nump :- Unpack2(Split(numkv, '='));
    if nump.0 != "Number" then Err(AssertionError(DeclarationKey)) else
    var typp :- Unpack2(Split(typekv, '='));
    if typp.0 != "Type" then Err(AssertionError(DeclarationKey)) else
    var descp :- Unpack2(SplitN(desckv, '=', 1));
    if descp.0 != "Description" then Err(AssertionError(DeclarationKey)) else
    Ok((idp.1, FieldDef(nump.1, typp.1, descp.1)))
  }

  /** The body of an `##FILTER` or `##ALT` line, unpacked into three parts
      after a single comma split. */
  function ParseShortDecl(sub: string): Result<(string, seq<string>)>
  {
    match Unpack3(SplitN(sub, ',', 1))
    case Err(e) => Err(e)
    case Ok(kvs) =>
      match Unpack2(Split(kvs.0, '='))
      case Err(e) => Err(e)
      case Ok(idp) =>
        if idp.0 != "ID" then Err(AssertionError(DeclarationKey)) else
        match Unpack2(Split(kvs.1, '='))
        case Err(e) => Err(e)
        case Ok(nump) =>
          if nump.0 != "Number" then Err(AssertionError(DeclarationKey)) else
          match Unpack2(SplitN(kvs.2, '=', 1))
          case Err(e) => Err(e)
          case Ok(descp) =>
            if descp.0 != "Description" then Err(AssertionError(DeclarationKey)) else
            Ok((idp.1, [nump.1, descp.1]))
  }

  /** `parse_header_line(line, headers)`: the updated headers, or the
      exception it raises. */
  function ParseHeaderLine(line: string, h: Headers): Result<Headers>
  {
    if StartsWith(line, "##INFO") then
      var d :- ParseDecl(Slice(Strip(line), 8, -1));
      Ok(h.(infos := h.infos[d.0 := d.1]))
    else if StartsWith(line, "##FORMAT") then
      var d :- ParseDecl(Slice(Strip(line), 10, -1));
      Ok(h.(formats := h.formats[d.0 := d.1]))
    else if StartsWith(line, "##FILTER") then
      match ParseShortDecl(Slice(Strip(line), 10, -1))
      case Err(e) => Err(e)
      case Ok(d) => Ok(h.(filters := h.filters[d.0 := d.1]))
    else if StartsWith(line, "##ALT") then
      match ParseShortDecl(Slice(Strip(line), 10, -1))
      case Err(e) => Err(e)
      case Ok(d) => Ok(h.(alts := h.alts[d.0 := d.1]))
    else Ok(h)
  }

  /** The `while line.startswith("##")` loop from line `i` on: the headers
      and the index of the first line that does not start with `##`. Any
      exception of a line becomes `Error while parsing header line`. */
  function HeaderLoop(lines: seq<string>, i: nat, h: Headers): Result<(Headers, nat)>
    requires i <= |lines|
    decreases |lines| - i
  {
    var line := ReadLine(lines, i);
    if !StartsWith(line, "##") then Ok((h, i))
    else
      match ParseHeaderLine(line, h)
      case Err(_) => Err(HeaderLineError(line))
      case Ok(h') => HeaderLoop(lines, i + 1, h')
  }

  /** The `#CHROM` line: sample names are the tab columns from the tenth on,
      and only the last one is stripped. */
  function ColumnHeader(line: string): Result<seq<string>>
  {
    if !StartsWith(line, "#CHROM") then Err(AssertionError(MissingColumnHeader))
    else
      var cols := Split(line, '\t');
      if |cols| <= 8 then Err(AssertionError(NoSampleColumns))
      else
        var s := cols[9..];
        if |s| == 0 then Err(IndexError)
        else Ok(s[..|s| - 1] + [Strip(s[|s| - 1])])
  }

  /** `parse_headers(filestream)`. */
  function ParseHeadersSpec(lines: seq<string>): Result<HeaderBlock>
  {
    var fileformat := Slice(ReadLine(lines, 0), 13, 20);
    if !SupportedVersion(fileformat) then Err(AssertionError(UnsupportedVersion))
    else
      var loop :- HeaderLoop(lines, 0, EmptyHeaders(fileformat));
      var samples :- ColumnHeader(ReadLine(lines, loop.1));
      Ok(HeaderBlock(loop.0, samples, if loop.1 < |lines| then lines[loop.1 + 1..] else []))
  }

  /** `parse_headers`, reading the lines one at a time and filling the headers
      as it goes. */
  method ParseHeaders(lines: seq<string>) returns (r: Result<HeaderBlock>)
    ensures r == ParseHeadersSpec(lines)
  {
    var line := ReadLine(lines, 0);
    var fileformat := Slice(line, 13, 20);
    if !SupportedVersion(fileformat) {
      return Err(AssertionError(UnsupportedVersion));
    }
    var loop := MetaLines(lines, fileformat);
    if loop.Err? {
      return Err(loop.error);
    }
    var (h, i) := loop.value;
    var samples := ColumnHeader(ReadLine(lines, i));
    if samples.Err? {
      return Err(samples.error);
    }
    r := Ok(HeaderBlock(h, samples.value, if i < |lines| then lines[i + 1..] else []));
  }

  /** The `while line.startswith("##")` loop of `parse_headers`. */
  method MetaLines(lines: seq<string>, fileformat: string) returns (r: Result<(Headers, nat)>)
    ensures r == HeaderLoop(lines, 0, EmptyHeaders(fileformat))
  {
    var h := EmptyHeaders(fileformat);
    var i := 0;
    var line := ReadLine(lines, 0);
    while StartsWith(line, "##")
      invariant i <= |lines| && line == ReadLine(lines, i)
      invariant HeaderLoop(lines, 0, EmptyHeaders(fileformat)) == HeaderLoop(lines, i, h)
      decreases |lines| - i
    {
      var next := ParseHeaderLine(line, h);
      if next.Err? {
        return Err(HeaderLineError(line));
      }
      h := next.value;
      i := i + 1;
      line := ReadLine(lines, i);
    }
    r := Ok((h, i));
  }

  // ---------------------------------------------------------------------------
  // Meta-information lines
  // ---------------------------------------------------------------------------

  /** A value that survives `split('=')` and `split(',', 3)` whole. */
  predicate PlainValue(v: string)
  {
    ',' !in v && '=' !in v
  }

  /** A well-formed `##<tag>=<ID=..,Number=..,Type=..,Description=..>` line. */
  function DeclLine(tag: string, id: string, number: string, typ: string, desc: string): string
  {
    "##" + tag + "=<ID=" + id + ",Number=" + number + ",Type=" + typ + ",Description=" + desc + ">\n"
  }

  lemma KeyValue(key: string, v: string)
    requires '=' !in key && '=' !in v
    ensures Split(key + "=" + v, '=') == [key, v]
  {
    assert key + "=" + v == key + ['='] + v;
    SplitAfterPiece(key, v, '=');
    SplitWithoutSeparator(v, '=');
  }

  /** The declaration body of a well-formed line decodes to its parts; the
      Description keeps every later comma and `=`. */
  lemma {:induction false} DeclBody(id: string, number: string, typ: string, desc: string)
    requires PlainValue(id) && PlainValue(number) && PlainValue(typ)
    ensures ParseDecl("ID=" + id + ",Number=" + number + ",Type=" + typ + ",Description=" + desc)
         == Ok((id, FieldDef(number, typ, desc)))
  {
    var a, b, c, d := "ID=" + id, "Number=" + number, "Type=" + typ, "Description=" + desc;
    var body := "ID=" + id + ",Number=" + number + ",Type=" + typ + ",Description=" + desc;
    DeclCommas(id, number, typ, desc);
    DeclPieces(a, b, c, d);
    assert SplitN(body, ',', 3) == [a, b, c, d];
    DeclKeys(id, number, typ, desc);
  }

  lemma DeclCommas(id: string, number: string, typ: string, desc: string)
    ensures "ID=" + id + ",Number=" + number + ",Type=" + typ + ",Description=" + desc
         == ("ID=" + id) + [','] + (("Number=" + number) + [','] + (("Type=" + typ) + [','] + ("Description=" + desc)))
  {
    assert ",Number=" == [','] + "Number=";
    assert ",Type=" == [','] + "Type=";
    assert ",Description=" == [','] + "Description=";
  }

  lemma DeclPieces(a: string, b: string, c: string, d: string)
    requires ',' !in a && ',' !in b && ',' !in c
    ensures SplitN(a + [','] + (b + [','] + (c + [','] + d)), ',', 3) == [a, b, c, d]
  {
    SplitNAfterPiece(a, b + [','] + (c + [','] + d), ',', 3);
    SplitNAfterPiece(b, c + [','] + d, ',', 2);
    SplitNAfterPiece(c, d, ',', 1);
    assert SplitN(d, ',', 0) == [d];
  }

  lemma DeclKeys(id: string, number: string, typ: string, desc: string)
    requires PlainValue(id) && PlainValue(number) && PlainValue(typ)
    ensures DeclFields("ID=" + id, "Number=" + number, "Type=" + typ, "Description=" + desc)
         == Ok((id, FieldDef(number, typ, desc)))
  {
    assert "ID=" + id == "ID" + "=" + id;
    assert "Number=" + number == "Number" + "=" + number;
    assert "Type=" + typ == "Type" + "=" + typ;
    KeyValue("ID", id);
    KeyValue("Number", number);
    KeyValue("Type", typ);
    assert "Description=" + desc == "Description" + ['='] + desc;
    SplitNAfterPiece("Description", desc, '=', 1);
    assert SplitN(desc, '=', 0) == [desc];
  }

  /** The declaration body of a well-formed line as cut out by
      `line.strip()[n:-1]`, where `n` is the length of `##<tag>=<`. */
  lemma DeclSlice(tag: string, id: string, number: string, typ: string, desc: string)
    ensures Slice(Strip(DeclLine(tag, id, number, typ, desc)), |tag| + 4, -1)
         == "ID=" + id + ",Number=" + number + ",Type=" + typ + ",Description=" + desc
  {
    var body := "ID=" + id + ",Number=" + number + ",Type=" + typ + ",Description=" + desc;
    var s := "##" + tag + "=<" + body + ">";
    assert DeclLine(tag, id, number, typ, desc) == s + "\n";
    StripLine(s);
    assert s[|tag| + 4..|s| - 1] == body;
  }

  /** An `##INFO` line stores `[Number, Type, Description]` under its ID. */
  lemma InfoLineStored(id: string, number: string, typ: string, desc: string, h: Headers)
    requires PlainValue(id) && PlainValue(number) && PlainValue(typ)
    ensures ParseHeaderLine(DeclLine("INFO", id, number, typ, desc), h)
         == Ok(h.(infos := h.infos[id := FieldDef(number, typ, desc)]))
  {
    DeclSlice("INFO", id, number, typ, desc);
    DeclBody(id, number, typ, desc);
  }

  /** A `##FORMAT` line stores `[Number, Type, Description]` under its ID. */
  lemma FormatLineStored(id: string, number: string, typ: string, desc: string, h: Headers)
    requires PlainValue(id) && PlainValue(number) && PlainValue(typ)
    ensures ParseHeaderLine(DeclLine("FORMAT", id, number, typ, desc), h)
         == Ok(h.(formats := h.formats[id := FieldDef(number, typ, desc)]))
  {
    DeclSlice("FORMAT", id, number, typ, desc);
    DeclBody(id, number, typ, desc);
    assert !StartsWith(DeclLine("FORMAT", id, number, typ, desc), "##INFO") by {
      assert DeclLine("FORMAT", id, number, typ, desc)[2] == 'F';
    }
  }

  /** `split(',', 1)` never gives the three parts the FILTER and ALT branches
      unpack, so those branches always raise. */
  lemma ShortDeclFails(sub: string)
    ensures ParseShortDecl(sub) == Err(ValueError)
  {
  }

  /** `##FILTER` and `##ALT` lines always raise; lines with none of the four
      prefixes leave the headers unchanged. */
  lemma HeaderLineCases(line: string, h: Headers)
    ensures (StartsWith(line, "##FILTER") || StartsWith(line, "##ALT")) ==> ParseHeaderLine(line, h).Err?
    ensures !StartsWith(line, "##INFO") && !StartsWith(line, "##FORMAT")
         && !StartsWith(line, "##FILTER") && !StartsWith(line, "##ALT")
         ==> ParseHeaderLine(line, h) == Ok(h)
  {
    if StartsWith(line, "##FILTER") || StartsWith(line, "##ALT") {
      ShortDeclFails(Slice(Strip(line), 10, -1));
      assert !StartsWith(line, "##INFO") by { assert line[2] == 'F' || line[2] == 'A'; }
      assert !StartsWith(line, "##FORMAT") by {
        assert line[2] == 'F' ==> line[3] == 'I';
      }
    }
  }

  /** Whether a meta line is accepted does not depend on the headers read so far. */
  predicate LineAccepted(line: string)
  {
    ParseHeaderLine(line, EmptyHeaders("")).Ok?
  }

  lemma AcceptanceIgnoresHeaders(line: string, h: Headers)
    ensures ParseHeaderLine(line, h).Ok? == LineAccepted(line)
  {
  }

  // ---------------------------------------------------------------------------
  // The whole header block
  // ---------------------------------------------------------------------------

  /** Index of the first line from `i` on that does not start with `##`
      (`|lines|` when there is none, where `readline()` gives `""`). */
  ghost function MetaEnd(lines: seq<string>, i: nat): (e: nat)
    requires i <= |lines|
    ensures i <= e <= |lines|
    decreases |lines| - i
  {
    if !StartsWith(ReadLine(lines, i), "##") then i else MetaEnd(lines, i + 1)
  }

  lemma {:induction false} MetaEndFacts(lines: seq<string>, i: nat)
    requires i <= |lines|
    ensures forall j :: i <= j < MetaEnd(lines, i) ==> StartsWith(lines[j], "##")
    ensures !StartsWith(ReadLine(lines, MetaEnd(lines, i)), "##")
    decreases |lines| - i
  {
    if StartsWith(ReadLine(lines, i), "##") {
      MetaEndFacts(lines, i + 1);
    }
  }

  /** The meta loop succeeds exactly when every `##` line before `MetaEnd` is
      accepted, and then stops at `MetaEnd`; otherwise it reports a line that
      was not accepted. */
  lemma {:induction false} HeaderLoopMeaning(lines: seq<string>, i: nat, h: Headers)
    requires i <= |lines|
    ensures HeaderLoop(lines, i, h).Ok? <==>
      forall j :: i <= j < MetaEnd(lines, i) ==> LineAccepted(lines[j])
    ensures HeaderLoop(lines, i, h).Ok? ==> HeaderLoop(lines, i, h).value.1 == MetaEnd(lines, i)
    ensures HeaderLoop(lines, i, h).Err? ==>
      exists j :: i <= j < MetaEnd(lines, i) && !LineAccepted(lines[j])
                  && HeaderLoop(lines, i, h).error == HeaderLineError(lines[j])
    decreases |lines| - i
  {
    var line := ReadLine(lines, i);
    if StartsWith(line, "##") {
      AcceptanceIgnoresHeaders(line, h);
      match ParseHeaderLine(line, h)
      case Err(_) =>
      case Ok(h') =>
        HeaderLoopMeaning(lines, i + 1, h');
    }
  }

  /** `parse_headers` succeeds exactly when characters 13 to 19 of the first
      line name a supported version, every `##` line is accepted, and the
      next line starts with `#CHROM` and has more than nine tab columns
      (exactly nine still fails at `samples[-1]`). The samples are the columns
      from the tenth on with only the last stripped, and the records start
      on the following line. */
  lemma HeadersMeaning(lines: seq<string>)
    ensures var e := MetaEnd(lines, 0);
      ParseHeadersSpec(lines).Ok? <==>
        SupportedVersion(Slice(ReadLine(lines, 0), 13, 20))
        && (forall j :: 0 <= j < e ==> LineAccepted(lines[j]))
        && e < |lines| && StartsWith(lines[e], "#CHROM") && |Split(lines[e], '\t')| > 9
    ensures var e := MetaEnd(lines, 0);
      ParseHeadersSpec(lines).Ok? ==>
        var cols := Split(lines[e], '\t');
        var b := ParseHeadersSpec(lines).value;
        b.samples == cols[9..|cols| - 1] + [Strip(cols[|cols| - 1])]
        && b.rest == lines[e + 1..]
        && b.headers.fileformat == Slice(ReadLine(lines, 0), 13, 20)
    ensures !SupportedVersion(Slice(ReadLine(lines, 0), 13, 20)) ==>
      ParseHeadersSpec(lines) == Err(AssertionError(UnsupportedVersion))
  {
    var fileformat := Slice(ReadLine(lines, 0), 13, 20);
    HeaderLoopMeaning(lines, 0, EmptyHeaders(fileformat));
    HeaderLoopFileformat(lines, 0, EmptyHeaders(fileformat));
  }

  lemma {:induction false} HeaderLoopFileformat(lines: seq<string>, i: nat, h: Headers)
    requires i <= |lines|
    ensures HeaderLoop(lines, i, h).Ok? ==> HeaderLoop(lines, i, h).value.0.fileformat == h.fileformat
    decreases |lines| - i
  {
    var line := ReadLine(lines, i);
    if StartsWith(line, "##") {
      match ParseHeaderLine(line, h)
      case Err(_) =>
      case Ok(h') =>
        HeaderLineKeepsFileformat(line, h);
        HeaderLoopFileformat(lines, i + 1, h');
    }
  }

  lemma HeaderLineKeepsFileformat(line: string, h: Headers)
    ensures ParseHeaderLine(line, h).Ok? ==> ParseHeaderLine(line, h).value.fileformat == h.fileformat
  {
  }

  /** A `#CHROM` line with exactly nine columns passes the `> 8` assertion
      and then fails on the empty sample list. */
  lemma NineColumnsFail(line: string)
    requires StartsWith(line, "#CHROM") && |Split(line, '\t')| == 9
    ensures ColumnHeader(line) == Err(IndexError)
  {
  }

  /** A `##FILTER` or `##ALT` line in the meta block aborts `parse_headers`. */
  lemma FilterLineAborts(lines: seq<string>, j: nat)
    requires j < MetaEnd(lines, 0)
    requires StartsWith(lines[j], "##FILTER") || StartsWith(lines[j], "##ALT")
    ensures ParseHeadersSpec(lines).Err?
  {
    HeaderLineCases(lines[j], EmptyHeaders(""));
    HeadersMeaning(lines);
  }
}

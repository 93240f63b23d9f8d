/** `parse_defined_field` of vcf_miniparser.py: the conversion of one INFO or
    genotype value under its `[Number, Type, Description]` declaration. */
module Fields {
  import opened Strings
  import opened VcfTypes

  predicate IsTextType(typ: string) { typ == "String" || typ == "Character" }

  /** `float(text)` for a Float type, `int(text)` for any other non-text type. */
  function ParseNumber(text: string, typ: string): (r: Result<Atom>)
    ensures r.Err? ==> r.error == ValueError
    ensures r.Ok? && typ == "Float" ==> r.value.Real?
    ensures r.Ok? && typ != "Float" ==> r.value.Int? && ParseInt(text) == Some(r.value.i)
  {
    if typ == "Float" then
      (if IsFloatLiteral(Strip(text)) then Ok(Real(Float(Strip(text)))) else Err(ValueError))
    else
      match ParseInt(text)
      case Some(i) => Ok(Int(i))
      case None => Err(ValueError)
  }

  /** `list(None if x == '.' else conv(x) for x in pieces)`: the first piece
      that does not convert raises. */
  function ParseAtoms(pieces: seq<string>, typ: string): Result<seq<Atom>>
    decreases |pieces|
  {
    if |pieces| == 0 then Ok([])
    else
      var head :- if pieces[0] == "." then Ok(Null) else ParseNumber(pieces[0], typ);
      var tail :- ParseAtoms(pieces[1..], typ);
      Ok([head] + tail)
  }

  /** A list conversion succeeds exactly when every piece is `.` or converts,
      and then yields one element per piece, `.` becoming None. */
  lemma {:induction false} ParseAtomsMeaning(pieces: seq<string>, typ: string)
    ensures ParseAtoms(pieces, typ).Ok? <==>
      forall k :: 0 <= k < |pieces| ==> pieces[k] == "." || ParseNumber(pieces[k], typ).Ok?
    ensures ParseAtoms(pieces, typ).Err? ==> ParseAtoms(pieces, typ).error == ValueError
    ensures ParseAtoms(pieces, typ).Ok? ==>
      |ParseAtoms(pieces, typ).value| == |pieces|
      && forall k :: 0 <= k < |pieces| ==>
           ParseAtoms(pieces, typ).value[k]
           == (if pieces[k] == "." then Null else ParseNumber(pieces[k], typ).value)
    decreases |pieces|
  {
    if |pieces| > 0 {
      ParseAtomsMeaning(pieces[1..], typ);
      var r := ParseAtoms(pieces, typ);
      if r.Ok? {
        forall k | 1 <= k < |pieces| ensures r.value[k] == ParseAtoms(pieces[1..], typ).value[k - 1] { }
      }
      if forall k :: 0 <= k < |pieces| ==> pieces[k] == "." || ParseNumber(pieces[k], typ).Ok? {
        assert forall k :: 0 <= k < |pieces[1..]| ==>
          pieces[1..][k] == "." || ParseNumber(pieces[1..][k], typ).Ok? by {
          forall k | 0 <= k < |pieces[1..]| ensures pieces[1..][k] == "." || ParseNumber(pieces[1..][k], typ).Ok? {
            assert pieces[1..][k] == pieces[k + 1];
          }
        }
      }
    }
  }

  /** `parse_defined_field(field, definition)`. The Flag type has no case of
      its own (it falls to the integer conversion), and the `field == '.'`
      test repeated inside the Number-1 branch can never hold there. */
  function ParseDefinedField(field: string, def: FieldDef): (r: Result<Value>)
    ensures field == "." ==> r == Ok(Many([Str(".")]))
    ensures r.Err? ==> r.error == ValueError && !IsTextType(def.typ) && field != "."
    ensures r.Ok? && field != "." && def.number == "1" && IsTextType(def.typ) ==> r.value == One(Str(field))
    ensures r.Ok? && field != "." && def.number != "1" ==> r.value.Many? && |r.value.items| == |Split(field, ',')|
  {
    if field == "." then Ok(Many([Str(".")]))
    else if def.number == "1" then
      if IsTextType(def.typ) then Ok(One(Str(field)))
      else
        var a :- ParseNumber(field, def.typ);
        Ok(One(a))
    else if IsTextType(def.typ) then Ok(RawList(field))
    else
      ParseAtomsMeaning(Split(field, ','), def.typ);
      var atoms :- ParseAtoms(Split(field, ','), def.typ);
      Ok(Many(atoms))
  }

  /** The typed result of a Number-1 declaration: the raw text for String and
      Character, a scalar float for Float, a scalar int for every other type;
      only a numeric type can reject a value. */
  lemma NumberOneCases(field: string, def: FieldDef)
    requires field != "." && def.number == "1"
    ensures IsTextType(def.typ) ==> ParseDefinedField(field, def) == Ok(One(Str(field)))
    ensures def.typ == "Float" ==>
      (ParseDefinedField(field, def).Ok? <==> IsFloatLiteral(Strip(field)))
      && (ParseDefinedField(field, def).Ok? ==> ParseDefinedField(field, def).value == One(Real(Float(Strip(field)))))
    ensures !IsTextType(def.typ) && def.typ != "Float" ==>
      (ParseDefinedField(field, def).Ok? <==> ParseInt(field).Some?)
      && (ParseDefinedField(field, def).Ok? ==> ParseDefinedField(field, def).value == One(Int(ParseInt(field).value)))
  {
  }

  /** Any other Number gives one list element per comma piece: the piece
      itself for text types; for numeric types None for a `.` piece and the
      converted number otherwise, failing exactly when some piece does not
      convert. */
  lemma ListCases(field: string, def: FieldDef)
    requires field != "." && def.number != "1"
    ensures IsTextType(def.typ) ==> ParseDefinedField(field, def) == Ok(RawList(field))
    ensures !IsTextType(def.typ) ==>
      var pieces := Split(field, ',');
      var r := ParseDefinedField(field, def);
      (r.Ok? <==> forall k :: 0 <= k < |pieces| ==> pieces[k] == "." || ParseNumber(pieces[k], def.typ).Ok?)
      && (r.Ok? ==> forall k :: 0 <= k < |pieces| ==>
            r.value.items[k] == (if pieces[k] == "." then Null else ParseNumber(pieces[k], def.typ).value))
  {
    if !IsTextType(def.typ) {
      var pieces := Split(field, ',');
      ListField(field, def);
      ParseAtomsMeaning(pieces, def.typ);
    }
  }

  /** The numeric list branch is the list conversion of the comma pieces. */
  lemma ListField(field: string, def: FieldDef)
    requires field != "." && def.number != "1" && !IsTextType(def.typ)
    ensures var atoms := ParseAtoms(Split(field, ','), def.typ);
      ParseDefinedField(field, def) == if atoms.Ok? then Ok(Many(atoms.value)) else Err(atoms.error)
  {
  }

}

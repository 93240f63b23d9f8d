/** The values the loader passes around: the `Record` and `Headers` named
    tuples of vcf_miniparser.py, typed field values, and the exceptions the
    three scripts raise, as a `Result`. */
module VcfTypes {
  import opened Strings

  /** A number Python's `float()` accepted, kept as the stripped literal; its
      numeric value is not modelled. */
  datatype Float = Float(literal: string)

  /** What a failed `assert` (or an `exit(1)` after a check) was about. */
  datatype Check =
    | UnsupportedVersion      // first line is not ##fileformat=VCFv4.0/4.1/4.2
    | DeclarationKey          // ID=, Number=, Type=, Description= in the wrong place
    | MissingColumnHeader     // no `#CHROM` line after the meta-information
    | NoSampleColumns         // `#CHROM` line with eight or fewer tab columns
    | TooManyGenotypeValues   // a sample has more `:` values than FORMAT names
    | RefMismatch             // records of one position disagree on REF
    | CollidingSamples        // a sample name occurs twice among the inputs
    | BadDatabaseName         // database name is not [a-zA-Z0-9_]+
    | BadCollectionName       // collection name is not [a-zA-Z0-9_]+
    | ReservedName            // collection name starts with `__`
    | DuplicateFile           // the same file is given twice
    | CollectionExists        // import without --append into an existing collection
    | InconsistentCollection  // table and metadata disagree on existence
    | PendingJob              // the collection carries a pending marker
    | SampleCollision         // appended samples already in the collection
    | FileCollision           // appended files already in the collection
    | StoredRefMismatch       // appended record's REF differs from the stored one
    | NoSuchCollection        // the collection has no metadata document
    | SpuriousCollection      // metadata without a table
    | SourceMissing           // copy source lacks its table or its metadata
    | DestinationExists       // copy destination has a table or metadata
    | NoSuchDatabase          // the database is not in the server's list
    | ForeignDatabase         // the database lacks the `vcfthink` sentinel

  datatype Exc =
    | ValueError
    | IndexError
    | TypeError
    | AssertionError(check: Check)
    | Exit(reason: Check)              // `exit(1)` after a printed message
    | HeaderLineError(line: string)    // `Exception('Error while parsing header line: ...')`
    | BadInfoField(kv: string)
    | BadRecord(line: string)
    | BadCollection(why: Check)
    | BadDatabase(why: Check)
    | OpFailed                         // the store refuses an operation (ReqlOpFailedError)
    | BadName                          // the store refuses a table name (ReqlQueryLogicError)

  datatype Result<+T> = Ok(value: T) | Err(error: Exc) {
    predicate IsFailure() { Err? }
    function PropagateFailure<U>(): Result<U>
      requires Err?
    {
      Err(error)
    }
    function Extract(): T
      requires Ok?
    {
      value
    }
  }

  /** Python's tuple unpacking `a, b = parts`. */
  function Unpack2(parts: seq<string>): (r: Result<(string, string)>)
    ensures r.Ok? <==> |parts| == 2
    ensures r.Ok? ==> r.value == (parts[0], parts[1])
    ensures r.Err? ==> r.error == ValueError
  {
    if |parts| == 2 then Ok((parts[0], parts[1])) else Err(ValueError)
  }

  /** Python's tuple unpacking `a, b, c = parts`. */
  function Unpack3(parts: seq<string>): (r: Result<(string, string, string)>)
    ensures r.Ok? <==> |parts| == 3
    ensures r.Err? ==> r.error == ValueError
  {
    if |parts| == 3 then Ok((parts[0], parts[1], parts[2])) else Err(ValueError)
  }

  /** Python's tuple unpacking `a, b, c, d = parts`. */
  function Unpack4(parts: seq<string>): (r: Result<(string, string, string, string)>)
    ensures r.Ok? <==> |parts| == 4
    ensures r.Err? ==> r.error == ValueError
  {
    if |parts| == 4 then Ok((parts[0], parts[1], parts[2], parts[3])) else Err(ValueError)
  }

  /** `[Number, Type, Description]` as stored in `headers.infos` / `headers.formats`. */
  datatype FieldDef = FieldDef(number: string, typ: string, description: string)

  /** The `Headers` named tuple. `filters`, `alts` and `extra` are never filled:
      `##FILTER` and `##ALT` lines always fail and other lines are ignored. */
  datatype Headers = Headers(
    fileformat: string,
    infos: map<string, FieldDef>,
    formats: map<string, FieldDef>,
    filters: map<string, seq<string>>,
    alts: map<string, seq<string>>,
    extra: map<string, string>)

  function EmptyHeaders(fileformat: string): Headers
  {
    Headers(fileformat, map[], map[], map[], map[], map[])
  }

  /** One element of a decoded value: text, an int, a float, or None. */
  datatype Atom = Str(s: string) | Int(i: int) | Real(f: Float) | Null

  /** A decoded INFO or genotype value: `True` for a flag, a scalar, or a list. */
  datatype Value = Flag | One(a: Atom) | Many(items: seq<Atom>)

  /** `value.split(',')` kept as a list of strings. */
  function RawList(text: string): (v: Value)
    ensures v.Many? && |v.items| == |Split(text, ',')|
    ensures forall k :: 0 <= k < |v.items| ==> v.items[k] == Str(Split(text, ',')[k])
  {
    var parts := Split(text, ',');
    Many(seq(|parts|, k requires 0 <= k < |parts| => Str(parts[k])))
  }

  /** The `Record` named tuple. */
  datatype Record = Record(
    chrom: string,
    pos: int,
    id: string,
    ref: string,
    alt: seq<string>,
    qual: Float,
    filter: string,
    info: map<string, Value>,
    samples: seq<map<string, Value>>)
}

# VCF loader for RethinkDB, modelled in Dafny

This project models the core of a tool that loads VCF (Variant Call Format)
files into RethinkDB. It has three parts.

- **The minimal VCF parser (`vcf_miniparser.py`).**
  - `parse_headers` reads the `##` meta-information lines and the `#CHROM` column line.
  - `parse_header_line` decodes the `INFO`, `FORMAT`, `FILTER` and `ALT` declarations.
  - `parse_records` is a generator of records. It can drop bad records, and its `ValueError` becomes `BadRecord`.
  - `parse_record_line`, `parse_info_field`, `parse_genotype_fields` and `parse_defined_field` do the typed decoding.
  - The module-level caches are `inferred_infos`, `inferred_formats` and `bad_info_fields`.
  - `parse_records_together` walks several files at once. Each round it yields the records sharing the lowest (CHROM, POS).
- **The importer (`vcf_import.py`).**
  - `main` checks its arguments, then checks that a new collection does not exist yet.
  - `init_parsers` parses every file's headers and refuses sample names that collide.
  - `merge_records` turns one group of joined records into one document. It checks the REFs agree, rewrites GT fields into allele strings, and gives the document the id `CHROM-POS`.
  - `quick_load` inserts a metadata document marked `doing_init`, creates the table, inserts the documents, then clears the marker.
  - `append_load` checks collisions, merges the metadata under the `appending_filenames` marker, upserts the documents (a REF conflict exits), then clears the marker.
- **The admin tool (`vcf_admin.py`).**
  - `do_list` lists collections or returns one collection's metadata.
  - `do_check` finds spurious metadata, spurious tables and pending jobs.
  - `do_fix()` removes spurious entries.
  - `do_fix(collection)` deletes a collection whose init never finished, or reverts an unfinished append.
  - `do_copy`, `do_delete`, `check_and_select_db` and `check_collection_name` are modelled as well.

The code works on values and on state.

- **Value-level code.** Decoding, merging and the server's reaction to each driver call are pure functions: `RecordSpec`, `DecodeStream`, `Join`, `MergeSpec` and `Step`/`Run`.
- **Code that changes state:**
  - the record generator, as the class `RecordParser`;
  - the module caches, as the class `Caches`;
  - the database connection, as the class `Store`, whose field `db` every driver call updates;
  - every script's loops, as methods with loop invariants.
- **How the two are tied.** Each such method is proved to end in the state and result that its specification function gives. The properties the scripts promise are lemmas about those functions.

The main results:

- **Join.** The join yields records in (CHROM, POS) order. Each file's records come out in file order as a prefix of its stream (`Join.JoinProjection`). A run of the join never stalls when every CHROM sorts at or below the 18-tilde start value.
- **Merged documents.** Each merged document holds exactly the per-file columns and the rewritten samples of its group (`Merge.MergeEntries`).
- **Detectable failures.** A load that does not go through always leaves its collection marked. `quick_load` leaves `doing_init`; `append_load` leaves `appending_filenames`, or changes nothing.
- **Recovery.** When every merged document has a non-negative POS, `do_fix(collection)` takes the database back to the exact state before the load (`Recovery.ImportRecoverable`).
  - One case is different. A collection name that `re.match` accepts because of a final newline is refused by the server. There the load stops at `table_create`, right after its metadata insert. `do_check` lists that metadata as spurious, and `do_fix()` removes it.
- **Consistency.** A load that does go through leaves the collection consistent, so a later append can be reverted as well (`Consistency.ImportConsistent`).

## Model

| member | source | states |
|---|---|---|
| Strings.JoinSplit | vcf_miniparser.py:273 | joining the pieces of `s.split(c)` with `c` gives back `s` |
| Strings.SplitJoin | vcf_miniparser.py:273 | splitting pieces that lack `c`, once joined with `c`, gives back exactly those pieces |
| Strings.SplitPiecesLackSeparator | vcf_miniparser.py:295 | no piece of `s.split(c)` contains `c` |
| Strings.SplitWithoutSeparator | vcf_miniparser.py:298-302 | a string without the separator splits into itself alone |
| Strings.SplitAfterPiece | vcf_miniparser.py:273 | splitting `a + c + b` for `a` without `c` gives `a` followed by the pieces of `b` |
| Strings.SplitN | vcf_miniparser.py:134 | `s.split(c, n)` has between 1 and n+1 pieces |
| Strings.SplitNAfterPiece | vcf_miniparser.py:134 | `split(c, n)` of `a + c + b` gives `a` followed by `b.split(c, n-1)` |
| Strings.SplitAllelesShape | vcf_import.py:103 | `re.split(r'([\|/])', gt)` gives back `gt` when concatenated; odd pieces are single separators; even pieces contain no separator |
| Strings.StripRightSpaces | vcf_miniparser.py:119 | stripping removes exactly the trailing whitespace |
| Strings.StripLine | vcf_miniparser.py:133 | `strip()` of a line ending in a newline, whose text has no surrounding whitespace, is that text |
| Strings.LexLessIrreflexive | vcf_miniparser.py:460-461 | Python's string `<` never holds between a string and itself |
| Strings.LexLessTransitive | vcf_miniparser.py:460-461 | Python's string `<` is transitive |
| Strings.LexLessTotal | vcf_miniparser.py:460-461 | any two strings are equal or one is below the other |
| Strings.LexLessAsymmetric | vcf_miniparser.py:460-461 | Python's string `<` never holds both ways |
| Strings.NatToStr | vcf_import.py:113 | `str(n)` is a non-empty digit string whose value is `n` |
| Strings.IntRoundTrip | vcf_import.py:113 | `int(str(n)) == n` for every integer |
| Strings.SpaceAfterSign | vcf_miniparser.py:277 | Python 2's `int()` skips whitespace after the sign: `'- 1'` reads as -1 and `'+\t7'` as 7; a sign alone or a doubled sign is a `ValueError` |
| Strings.IntToStrInjective | vcf_import.py:113 | different integers print differently |
| Strings.StripDigits | vcf_miniparser.py:277 | `strip()` leaves an optionally signed digit string unchanged |
| VcfTypes.Unpack2 | vcf_miniparser.py:138 | `key, value = parts` succeeds exactly for two pieces, otherwise raises `ValueError` |
| VcfTypes.Unpack3 | vcf_miniparser.py:204 | unpacking into three names succeeds exactly for three pieces, otherwise `ValueError` |
| VcfTypes.Unpack4 | vcf_miniparser.py:134 | unpacking into four names succeeds exactly for four pieces, otherwise `ValueError` |
| VcfTypes.RawList | vcf_miniparser.py:337 | `value.split(',')` as a list holds one string per comma-separated piece, in order |
| Fields.ParseNumber | vcf_miniparser.py:416-418 | a non-text value parses as a float for `Float` and otherwise as an integer; the integer grammar is that of Python 2's `int()`: surrounding whitespace, a sign, whitespace after the sign, then digits; failure is `ValueError` |
| Fields.ParseAtomsMeaning | vcf_miniparser.py:423-426 | a list of numbers parses exactly when every piece is `.` or a number; each `.` becomes `None` and the other pieces become their numbers, in order |
| Fields.ParseDefinedField | vcf_miniparser.py:395-426 | `.` gives `['.']`; only non-text types can fail, with `ValueError`; Number=1 text is kept as is; other Numbers give one item per piece |
| Fields.NumberOneCases | vcf_miniparser.py:408-418 | for Number=1: text types return the field; `Float` succeeds exactly on a float literal; other types succeed exactly on an integer, with its value |
| Fields.ListCases | vcf_miniparser.py:420-426 | for other Numbers: text types give the raw list; numeric types succeed exactly when every piece is `.` or a number, and map each piece |
| VcfHeaders.ParseHeaders | vcf_miniparser.py:85-121 | the header loop computes `ParseHeadersSpec` of the file's lines |
| VcfHeaders.MetaLines | vcf_miniparser.py:102-107 | the `while line.startswith("##")` loop computes the header fold over the `##` lines |
| VcfHeaders.KeyValue | vcf_miniparser.py:138-140 | `k=v` without another `=` splits into key and value |
| VcfHeaders.DeclBody | vcf_miniparser.py:134-157 | a well-formed `ID=..,Number=..,Type=..,Description=..` body decodes to its id and definition; the description may hold commas and `=` |
| VcfHeaders.DeclPieces | vcf_miniparser.py:134 | `split(',', 3)` of four comma-joined parts whose first three lack commas gives the four parts |
| VcfHeaders.DeclKeys | vcf_miniparser.py:137-155 | the four `key=value` fields with the expected keys decode to the id and definition |
| VcfHeaders.DeclSlice | vcf_miniparser.py:133 | `line.strip()[8:-1]` of an `##INFO=<...>` line (`[10:-1]` for FORMAT) is the body between the brackets |
| VcfHeaders.InfoLineStored | vcf_miniparser.py:126-158 | a well-formed `##INFO` line stores its definition under its id in `infos`, and nothing else changes |
| VcfHeaders.FormatLineStored | vcf_miniparser.py:161-193 | a well-formed `##FORMAT` line stores its definition under its id in `formats`, and nothing else changes |
| VcfHeaders.ShortDeclFails | vcf_miniparser.py:204 | `split(',', 1)` can never be unpacked into three names: `ValueError` |
| VcfHeaders.HeaderLineCases | vcf_miniparser.py:125-253 | every `##FILTER` and `##ALT` line fails; a line of none of the four kinds leaves the headers unchanged |
| VcfHeaders.AcceptanceIgnoresHeaders | vcf_miniparser.py:125-253 | whether a header line is accepted does not depend on the headers collected so far |
| VcfHeaders.MetaEndFacts | vcf_miniparser.py:102-107 | the loop reads exactly the `##` lines that precede the first line without `##` |
| VcfHeaders.HeaderLoopMeaning | vcf_miniparser.py:102-107 | the loop succeeds exactly when every `##` line is accepted and stops at the first non-`##` line; on failure it raises `Error while parsing header line` for a rejected line |
| VcfHeaders.HeadersMeaning | vcf_miniparser.py:85-121 | `parse_headers` succeeds exactly when: the version is supported, every `##` line is accepted, and a `#CHROM` line with more than 9 columns follows; the samples are columns 9 on with the last stripped; the rest are the lines after it; an unsupported version raises its assertion |
| VcfHeaders.HeaderLoopFileformat | vcf_miniparser.py:95-107 | the fileformat read from the first line survives the header loop |
| VcfHeaders.HeaderLineKeepsFileformat | vcf_miniparser.py:125-253 | no header line changes the fileformat |
| VcfHeaders.NineColumnsFail | vcf_miniparser.py:115-119 | a `#CHROM` line with exactly 9 columns passes `len > 8`, then `samples[-1]` raises `IndexError` |
| VcfHeaders.FilterLineAborts | vcf_miniparser.py:102-106 | a file with a `##FILTER` or `##ALT` line fails `parse_headers` |
| Records.Caches.constructor | vcf_miniparser.py:29-30 | the caches `inferred_infos`, `inferred_formats` and `bad_info_fields` start empty |
| Records.AddInferredStep | vcf_miniparser.py:334-335 | an inferred definition is added only for a key not yet inferred |
| Records.AddInferredTwice | vcf_miniparser.py:376-377 | inferring two sets of keys one after the other is inferring their union |
| Records.InfoErrorSticky | vcf_miniparser.py:317 | once a piece raises `BadInfoField`, the later pieces change nothing |
| Records.InfoErrorMeaning | vcf_miniparser.py:295-331 | the INFO fold fails exactly when a piece raises, and then with `BadInfoField` of the first such piece |
| Records.InfoKeysMeaning | vcf_miniparser.py:295-340 | on success: the field keys are those of the writing pieces; the inferred keys are those of the stored undefined or declared pieces; the bad keys are those of the dropped pieces |
| Records.InfoValuesMeaning | vcf_miniparser.py:295-340 | a key's value is that of its last writing piece |
| Records.ParseInfoField | vcf_miniparser.py:289-340 | `parse_info_field` returns the INFO map or its exception, and updates `inferred_infos` and `bad_info_fields` as the specification says; `inferred_formats` is left alone |
| Records.InfoPieces | vcf_miniparser.py:295-338 | the `for kv in field.split(';')` loop computes the INFO fold and its cache updates |
| Records.InfoPiece | vcf_miniparser.py:297-337 | one turn of that loop makes one step of the fold, on both the fields and the caches |
| Records.DeclaredStoredRaw | vcf_miniparser.py:319-337 | a declared INFO key whose value parses still ends as the raw `value.split(',')` and is recorded as inferred, because no `continue` follows the successful parse |
| Records.DeclaredBadValue | vcf_miniparser.py:321-331 | a declared key whose value does not parse is dropped with `ignore_bad_info` and raises `BadInfoField(kv)` without it |
| Records.FlagPieces | vcf_miniparser.py:297-302 | a piece without `=` is a flag |
| Records.SampleErrorSticky | vcf_miniparser.py:359-379 | once a value of a sample fails, the rest change nothing |
| Records.SampleMeaning | vcf_miniparser.py:358-379 | a sample parses exactly when all its values decode, failing with the first failure; its keys are the FORMAT names of its values; the undeclared ones are inferred |
| Records.SampleValues | vcf_miniparser.py:358-379 | each key holds the decoded value of its last occurrence |
| Records.GenoErrorSticky | vcf_miniparser.py:352-391 | once a sample column fails, the later columns change nothing |
| Records.ColumnOutcomeCases | vcf_miniparser.py:356 | a column fails its assertion exactly when its value count is outside `[first_field_is_GT, num_fields]` |
| Records.GenoErrorMeaning | vcf_miniparser.py:352-393 | the genotype fold fails exactly when some column fails, with that column's assertion or value error |
| Records.GenoSamplesMeaning | vcf_miniparser.py:351-393 | on success there is one sample map per column, in order, and the inferred keys are those of the columns |
| Records.SampleErrorIsValueError | vcf_miniparser.py:365-379 | a column that fits fails only with `ValueError` |
| Records.ParseSample | vcf_miniparser.py:358-391 | the per-sample loop returns the sample map or its error, and adds its undeclared keys to `inferred_formats` |
| Records.ParseGenotypeFields | vcf_miniparser.py:342-393 | `parse_genotype_fields` returns the samples or the first failure, and updates `inferred_formats` only |
| Records.ParseColumn | vcf_miniparser.py:353-391 | one sample column: the value-count assertion, then the sample loop |
| Records.ParseRecordLine | vcf_miniparser.py:272-285 | `parse_record_line` returns the record or its exception, with the cache updates of its INFO and genotype parts |
| Records.RecordMeaning | vcf_miniparser.py:272-285 | a parsed record has: CHROM, ID, REF and FILTER from their columns; POS as the integer of column 2 (Python 2's `int()` grammar, whitespace after the sign included); ALT as the comma pieces; QUAL as a float literal; the decoded INFO; one fitting sample per column after the ninth |
| Records.QualDotIsBad | vcf_miniparser.py:281 | a record whose QUAL is `.` fails with `ValueError`, since `float('.')` raises |
| Records.NewlineStaysOnLastColumn | vcf_miniparser.py:261-273 | the line's newline stays on the last column only |
| Records.StreamSkip | vcf_miniparser.py:264-266 | with `drop_bad_records` a line raising `ValueError` is skipped |
| Records.StreamPrefix | vcf_miniparser.py:261-268 | lines that pass contribute their records, in order, before the rest of the stream |
| Records.StreamFirst | vcf_miniparser.py:261-263 | a first line that passes yields its record ahead of the rest |
| Records.StreamMeaning | vcf_miniparser.py:260-268 | the generator yields the records of the lines before the first line that stops it, then ends, or raises `BadRecord(line)` for a `ValueError` and the exception itself otherwise |
| Records.PullAdvancesStream | vcf_miniparser.py:260-268 | `next()` returns the stream's first record, or exhaustion, or the stream's exception; what remains is the rest of the stream |
| Records.QualDotStopsStream | vcf_miniparser.py:264-268 | without dropping, a first record with QUAL `.` makes the generator raise `BadRecord` at once |
| Records.RecordParser.constructor | vcf_miniparser.py:260 | a generator over the record lines with the file's headers and flags |
| Records.RecordParser.Next | vcf_miniparser.py:260-268 | one `next()`: the pull, the lines consumed (all of them after an exception) and the cache updates |
| Records.PullLines | vcf_miniparser.py:261-268 | the `for line in filestream` loop up to the next yield agrees with the pull specification |
| Records.PullStep | vcf_miniparser.py:261-268 | one line yields its record; or it is skipped on `ValueError` when dropping; or it raises `BadRecord`; or its other exception propagates |
| Records.ParseLineAccounted | vcf_miniparser.py:263 | parsing a line accumulates its cache effects onto those before |
| Join.KeyLessIrreflexive | vcf_miniparser.py:460-467 | no record is below itself in (CHROM, POS) order |
| Join.KeyLessTransitive | vcf_miniparser.py:460-467 | the (CHROM, POS) order is transitive |
| Join.BelowEligible | vcf_miniparser.py:451-461 | a record below one that can be selected can itself be selected |
| Join.BeatsNone | vcf_miniparser.py:451-461 | against the 18-tilde start value, a head is selected exactly when its CHROM does not sort above it |
| Join.ScanInvariant | vcf_miniparser.py:455-469 | the selection scan keeps its invariant at every step |
| Join.SelectMeaning | vcf_miniparser.py:449-469 | the selected ids are ascending, are exactly the selectable heads sharing the lowest (CHROM, POS), and are empty exactly when no head can be selected |
| Join.SelectLowest | vcf_miniparser.py:449-469 | the scan loop returns those ids and their records |
| Join.CountNoneBounds | vcf_miniparser.py:447-448 | the exhausted count is at most the number of parsers, and equal to it exactly when every buffer slot is empty |
| Join.CountNoneUpdate | vcf_miniparser.py:473-474 | refilling a slot changes the exhausted count by the change of that slot |
| Join.StepFacts | vcf_miniparser.py:448-477 | one round yields the group of the selected heads and continues from the advanced cursors, or ends with the first exception a pull raised |
| Join.SelectedGroupOk | vcf_miniparser.py:477 | a yielded group lists distinct file indexes in order, with records sharing one (CHROM, POS) |
| Join.NoStallStep | vcf_miniparser.py:448-469 | when every CHROM can be selected and some parser is live, a round selects something |
| Join.JoinFromShape | vcf_miniparser.py:442-477 | every yielded group is well formed, and the join does not stall when every CHROM can be selected |
| Join.JoinShape | vcf_miniparser.py:442-477 | the same from the start; with no files the join yields nothing |
| Join.JoinFromProjection | vcf_miniparser.py:442-477 | from any cursors, each file's records in the groups are that file's next records, in order |
| Join.JoinProjection | vcf_miniparser.py:442-477 | each file's records in the groups are a prefix of its stream, and all of it when the join ends normally |
| Join.PullOne | vcf_miniparser.py:472 | `next(parser, None)` returns the stream's next record or `None`, or its exception, and advances the parser |
| Join.PullAt | vcf_miniparser.py:471-475 | advancing one selected parser keeps every parser in step with its cursor |
| Join.PullOneOf | vcf_miniparser.py:472 | pulling one parser of the tuple leaves the others where they were |
| Join.AdvanceOne | vcf_miniparser.py:471-475 | one turn of the refill loop, stopping at the first exception |
| Join.AdvanceSelected | vcf_miniparser.py:471-475 | the refill loop advances exactly the selected parsers, or raises the first exception |
| Join.MakeParsers | vcf_miniparser.py:443 | one fresh generator per file, none pulled yet |
| Join.PullFirst | vcf_miniparser.py:446 | the first pull of one parser |
| Join.FirstPulls | vcf_miniparser.py:446 | `record_buffer` holds each stream's first record, or the first exception is raised |
| Join.CountExhausted | vcf_miniparser.py:447 | `exhausted_parsers` counts the empty buffer slots |
| Join.JoinRound | vcf_miniparser.py:449-477 | one turn of the `while` loop: the group yielded and the state after it, or the end of the join |
| Join.JoinLoop | vcf_miniparser.py:448-477 | the `while` loop yields exactly the groups of the join, with its end |
| Join.ParseRecordsTogether | vcf_miniparser.py:442-477 | `parse_records_together` yields exactly `Join` of the files' streams |
| Merge.DocIdInjective | vcf_import.py:113 | for non-negative positions, different (CHROM, POS) give different ids `CHROM-POS` |
| Merge.NegativePosIdCollision | vcf_import.py:113 | with a negative POS two different records share an id: `a--5` |
| Merge.RewritePiecesMeaning | vcf_import.py:103-104 | the GT rewrite succeeds exactly when every piece does, and keeps one output per piece |
| Merge.GtRewriteSucceeds | vcf_import.py:100-104 | the GT rewrite succeeds exactly when every piece is a separator, `.` or an allele index within REF+ALT; otherwise it raises `ValueError` or `IndexError` |
| Merge.GtRewriteValues | vcf_import.py:100-104 | each allele index becomes REF or the ALT it names; separators are kept in place |
| Merge.PieceRewrittenOk | vcf_import.py:104 | a rewritten piece is the separator or the allele it names |
| Merge.SeparatorKept | vcf_import.py:104 | a separator piece is kept as is |
| Merge.RewriteSamplesMeaning | vcf_import.py:101-104 | the samples of a record are rewritten one by one, in order, and all must succeed |
| Merge.RewriteSampleKeys | vcf_import.py:101-104 | rewriting keeps a sample's keys and every value but GT |
| Merge.RewriteRecordSamples | vcf_import.py:101-104 | the `for sample in record.samples` loop computes that rewrite |
| Merge.RewriteSamplesPrefix | vcf_import.py:101-104 | a failure among the first samples is the failure of the whole rewrite |
| Merge.RewriteSampleErrors | vcf_import.py:104 | a sample rewrite fails only with `ValueError`, `IndexError` or `TypeError` |
| Merge.RewriteSamplesErrors | vcf_import.py:101-104 | so does the rewrite of all samples |
| Merge.UpdateSamplesMeaning | vcf_import.py:110 | `samples.update(...)` adds each file's sample names; untouched names keep their value; with distinct names each holds its sample |
| Merge.FoldErrorSticky | vcf_import.py:99-110 | once a member of the group fails, the later members change nothing |
| Merge.MergeRecords | vcf_import.py:83-122 | `merge_records` computes `MergeSpec` of the group |
| Merge.CheckRefs | vcf_import.py:87-88 | the REF assertion holds exactly when every REF equals the first |
| Merge.FoldMembers | vcf_import.py:99-110 | the `for i, record in multirecord` loop computes the per-file maps and the samples, or the first error |
| Merge.ColumnsKeys | vcf_import.py:106-109 | `IDs`, `QUALs`, `FILTERs` and `INFOs` all have the group's file names as keys |
| Merge.SamplesKeys | vcf_import.py:110 | the samples' keys are the sample names of the group's records |
| Merge.MergeDocument | vcf_import.py:83-122 | a merged document: the group is non-empty and its REFs agree; the id is `CHROM-POS` of the first record; it holds that record's CHROM, POS and REF, one column entry per file and one sample per name |
| Merge.MergeColumnsAt | vcf_import.py:106-109 | each file's ID, QUAL, FILTER and INFO are stored under its name |
| Merge.MergeSampleAt | vcf_import.py:110 | each sample is stored, with its GT rewritten, under its name from the header |
| Merge.MergeEntries | vcf_import.py:99-121 | every member's columns and every rewritten sample are in the document |
| Merge.MergeFailures | vcf_import.py:87-90 | an empty group raises `IndexError`; the REF assertion fails exactly on a mismatch; no other exception arises |
| Results.FirstsMeaning | vcf_import.py:167-168 | the documents written are those merged before the first failing group, and that failure is the one raised |
| Results.AllOk | vcf_import.py:167-168 | nothing fails exactly when every group merges |
| Results.FirstsSticky | vcf_import.py:167-168 | after a failure, later groups change nothing |
| Results.FirstsExtends | vcf_import.py:167-168 | the merged documents only grow as more groups are seen |
| Store.TableList | vcf_import.py:184 | `table_list()` holds `__METADATA__` and every collection table |
| Store.OverlayNested | vcf_import.py:241 | `r.row.merge` merges nested objects key by key; on a shared key the new inner entries win |
| Store.MergeDoc | vcf_import.py:237-242 | the merge keeps the new id, CHROM, POS and REF; each per-file map has the keys of both documents |
| Store.RevertTable | vcf_admin.py:333-343 | the revert keeps a document's id exactly when its replace does not delete it, and stores the replaced document |
| Store.Store.constructor | vcf_import.py:52 | a connection to a database |
| Store.Store.Exec | vcf_import.py:161-175 | one driver call changes the database as the server's `Step` says, or raises and changes nothing |
| Store.Store.ExecAll | vcf_import.py:161-175 | a script's calls run in order until the first exception |
| Store.Store.ExecCounted | vcf_admin.py:333-351 | a write also returns its `deleted`, `replaced` and `inserted` counters |
| Store.RunStops | vcf_import.py:167-175 | once a call raises, the later calls are not sent |
| Store.RunFailureKeepsState | vcf_import.py:237-246 | a failing script leaves the database as the calls before the raising one left it |
| Store.CreateDropInverse | vcf_admin.py:384 | creating a table the database lacks and then dropping it restores the database; the pair goes through exactly when the server accepts the name, and otherwise `BadName` is raised |
| Store.InsertDeleteMetaInverse | vcf_admin.py:385 | inserting a metadata document under a fresh id and deleting it restores the database |
| Store.RevertUntouched | vcf_admin.py:334 | a document with no appended file is left as it is |
| Store.RevertFresh | vcf_admin.py:335-336 | a document made only of appended files is deleted |
| Store.RevertMixed | vcf_admin.py:337-343 | a document mixing old and appended files loses the appended entries and the bad samples |
| Store.RevertMergedDoc | vcf_admin.py:333-343 | reverting the merge of a stored document with a document of the appended files gives back the stored document |
| Store.RevertMergedMeta | vcf_admin.py:345-349 | reverting the metadata merge of an append gives back the metadata before it |
| Store.CopyIntoEmpty | vcf_admin.py:369-370 | copying a table into a new empty one makes them equal, and counts every document as inserted |
| Store.StepKeepsKeyedById | vcf_import.py:237 | every driver call keeps each document stored under its own id |
| Writes.MergeFailureEnds | vcf_import.py:167-168 | a group that cannot be merged ends the load with its exception, after the earlier writes |
| Writes.WriteDoc | vcf_import.py:168 | one document write continues the writes before it |
| Writes.WriteFailureEnds | vcf_import.py:244-246 | a write that raises ends the load |
| Writes.Finish | vcf_import.py:174-175 | `sync` then the marker removal, as `FinishSpec` says |
| Writes.DocOpEffect | vcf_import.py:237-246 | a document write: touches the collection's table only; an insert into an existing table never raises; an upsert raises only on a REF conflict; the table gains the document's id |
| Writes.DocOpsFrame | vcf_import.py:167-168 | the document writes leave the metadata and every other table unchanged |
| Writes.DocOpsErrors | vcf_import.py:234-246 | the inserts of `quick_load` never raise; the upserts of `append_load` raise only the REF-conflict exit |
| Writes.DocOpsKeys | vcf_import.py:167-168 | writes that all go through leave the table with its old ids plus the documents' ids |
| Writes.FinishMarker | vcf_import.py:174-175 | the marker is removed exactly when the join ended normally; otherwise the metadata is unchanged |
| Writes.LoadWithMarker | vcf_import.py:167-175 | after the metadata write, success means every group merged, the join ended and the marker is gone; failure leaves the marker; only the collection's table changes |
| Importer.NoRepeatsMeaning | vcf_import.py:47 | `len(xs) == len(set(xs))` holds exactly when no two positions hold the same name |
| Importer.ImportArgsMeaning | vcf_import.py:41-48 | the argument checks pass exactly when: both names match `[a-zA-Z0-9_]+`, the collection does not start with `__`, and no file is named twice; a repeated file gives the duplicate-file assertion |
| Importer.ParseHeadersTogether | vcf_miniparser.py:438-439 | the files' headers are parsed in order, and the first failure is raised |
| Importer.FlattenMembers | vcf_import.py:137 | the flattened list holds exactly the names of the files' lists |
| Importer.FlattenDistinct | vcf_import.py:137-139 | with no repeat in the flattened list, no file repeats a name and no name is in two files |
| Importer.InitOk | vcf_import.py:126-141 | `init_parsers` succeeds exactly when: there is a file, each file's headers parse, and no sample name repeats |
| Importer.InitBlocks | vcf_import.py:135-141 | on success each file gets its own header block, and the sample names are distinct within and across files |
| Importer.InitParsers | vcf_import.py:126-141 | the method computes `InitSpec` |
| Importer.VcfsOfKeys | vcf_import.py:156 | the `vcfs` map has one key per file |
| Importer.VcfsOfOwn | vcf_import.py:156 | with distinct files, each file's entry is its own headers |
| Importer.SampleFilesKeys | vcf_import.py:157 | the `samples` map's keys are the files' sample names |
| Importer.SampleFilesValues | vcf_import.py:157 | every sample maps to one of the files |
| Importer.SampleFilesOwn | vcf_import.py:157 | with no name shared, each sample maps to its own file |
| Importer.JoinIndexed | vcf_import.py:167 | every joined group addresses the files and their sample names |
| Importer.WriteGroups | vcf_import.py:167-172 | the `for multirecord in parsers` loop computes the write specification |
| Importer.WriteNext | vcf_import.py:167-168 | one turn of that loop: merge group k, then write its document, or end with the failure |
| Importer.Load | vcf_import.py:163-175 | the join, the writes and the end together compute `LoadSpec` |
| Importer.QuickLoad | vcf_import.py:145-176 | `quick_load` computes `QuickLoadSpec` |
| Importer.AppendLoad | vcf_import.py:180-256 | `append_load` computes `AppendLoadSpec` |
| Protocol.QuickBlocksMarker | vcf_import.py:154-175 | `quick_load` always adds the collection's metadata, with `doing_init` set exactly when it fails. It fails exactly when: the server refuses the name, a group cannot be merged, or the join raises. Under an accepted name it adds exactly the table; under a refused one the tables are unchanged and `BadName` is raised. On success the table holds the merged ids |
| Protocol.QuickSetup | vcf_import.py:161-164 | the metadata insert for a new collection always goes through; `table_create` goes through exactly when the server accepts the name, and otherwise raises `BadName` after the insert |
| Protocol.SetupLoad | vcf_import.py:163-175 | after the setup, the same facts hold for the writes and the end |
| Protocol.QuickLoadDetectable | vcf_import.py:145-176 | a `quick_load` that changes anything parsed its headers and wrote the collection's metadata, with `doing_init` set exactly when it failed; the table exists exactly when the server accepts the name |
| Protocol.AppendBlocksMarker | vcf_import.py:223-254 | the append's metadata is the merged one: `appending_filenames` stays set exactly on failure; only the collection's table changes; on success it gains the merged ids |
| Protocol.AppendGuards | vcf_import.py:184-221 | an `append_load` that changes anything found: the table present, no pending marker, headers that parse, no colliding sample and no colliding file |
| Protocol.AppendLoadDetectable | vcf_import.py:180-256 | `append_load` either changes nothing or leaves `appending_filenames` set exactly when it fails |
| Protocol.ImportChecksFirst | vcf_import.py:41-62 | `main` changes nothing unless the arguments pass and, without `--append`, the collection is new |
| Recovery.UpsertOverwrites | vcf_import.py:237-242 | upserting a document of the appended files keeps the stored document recoverable |
| Recovery.UpsertKeeps | vcf_import.py:237-242 | one upsert keeps the table an append of the stored one |
| Recovery.UpsertsKeep | vcf_import.py:234-246 | the upserts of an append, however far they get, keep the table an append of the stored one |
| Recovery.RevertsTo | vcf_admin.py:333-343 | the revert gives back the stored document from its appended version |
| Recovery.AppendedReverts | vcf_admin.py:333-343 | the revert of an appended table is exactly the stored table |
| Recovery.SampleFilesNew | vcf_import.py:157 | the new sample map's keys are the files' sample names, and its values are among the files |
| Recovery.AppendSeparates | vcf_import.py:204-221 | after the collision checks, no stored document involves the appended files or samples |
| Recovery.QuickFailureFixed | vcf_admin.py:327-329 | after a failed `quick_load` under a name the server accepts, `do_check` reports `doing init`, and `do_fix(collection)` restores the database before the load |
| Recovery.RefusedNameFixed | vcf_admin.py:298-324 | after a `quick_load` under a name the server refuses: the load raised `BadName`; `do_check` lists the metadata as spurious, not pending; `do_fix(collection)` raises `BadCollection` and changes nothing; `do_fix()` finds the same spurious tables as before the load and leaves the database it would have left then |
| Recovery.AppendFailureFixed | vcf_admin.py:331-351 | after a failed append, either nothing changed, or `do_check` reports the appended files and `do_fix(collection)` restores the database before the append |
| Recovery.AppendMetaReverts | vcf_admin.py:345-349 | the metadata revert undoes the append's metadata merge |
| Recovery.AppendingReported | vcf_admin.py:289-290 | a collection marked with `appending_filenames` is reported with those files |
| Recovery.FixReverts | vcf_admin.py:314-351 | `do_fix(collection)` on an appended collection whose reverts give back the old state restores the database |
| Recovery.AppendTableAppended | vcf_import.py:234-246 | the append leaves the table an append of the stored one |
| Recovery.AppendTableReverts | vcf_admin.py:332-343 | the table revert after an append gives back the stored table |
| Recovery.MergedDocNew | vcf_import.py:83-122 | a merged document with a non-negative POS involves only the loaded files and samples and is stored under `CHROM-POS` |
| Recovery.MergedDocsNew | vcf_import.py:167-168 | so does every merged document of the load |
| Recovery.NothingPending | vcf_admin.py:285-290 | a collection without markers is not reported |
| Recovery.QuickLoadRecoverable | vcf_import.py:145-176 | a failed `quick_load` changed nothing, or is fixed by `do_fix(collection)` back to the state before it, or (for a name the server refuses) left spurious metadata that `do_fix()` removes; a successful one leaves the collection unmarked |
| Recovery.AppendLoadRecoverable | vcf_import.py:180-256 | a failed `append_load` on a consistent or absent collection changed nothing, or is fixed by `do_fix(collection)` back to the state before it; a successful one leaves the collection unmarked |
| Recovery.ImportRecoverable | vcf_import.py:58-74 | the same for an import, with or without `--append`: a failure changed nothing, or `do_fix(collection)` restores the state before it, or (a new collection under a name the server refuses) `do_fix()` removes the spurious metadata it left; a success leaves the collection unmarked |
| Consistency.InsertsKeep | vcf_import.py:167-168 | the inserts of new documents keep every document new |
| Consistency.InitialMetaShape | vcf_import.py:154-159 | the initial metadata lists the files and their samples, each sample under one of the files |
| Consistency.QuickBlocksConsistent | vcf_import.py:145-176 | a `quick_load` that goes through leaves its collection consistent |
| Consistency.OverwrittenStored | vcf_import.py:237-242 | an overwritten document stays consistent with the merged metadata |
| Consistency.AppendedStored | vcf_import.py:234-246 | every document of an appended table is consistent with the merged metadata |
| Consistency.MergedMetaShape | vcf_import.py:223-230 | the merged metadata lists the old and new files and samples, each sample under one of its files |
| Consistency.AppendBlocksConsistent | vcf_import.py:180-256 | an append that goes through leaves its collection consistent |
| Consistency.QuickLoadConsistent | vcf_import.py:145-176 | a `quick_load` of a new collection that goes through leaves it consistent |
| Consistency.AppendLoadConsistent | vcf_import.py:180-256 | an `append_load` that goes through leaves its collection consistent |
| Consistency.ImportConsistent | vcf_import.py:58-74 | an import that goes through leaves its collection consistent |
| Admin.CheckCollectionName | vcf_admin.py:410-414 | a name is accepted exactly when it matches `[a-zA-Z0-9_]+` and does not start with `__`; otherwise `BadCollection` |
| Admin.AcceptedNotMetaTable | vcf_admin.py:410-414 | an accepted name is never `__METADATA__` |
| Admin.TrailingNewlineAccepted | vcf_admin.py:411 | `re.match` with `$` accepts a valid name followed by a newline |
| Admin.AcceptedServerName | vcf_admin.py:410-414 | a name `check_collection_name` accepts is a table name the server accepts exactly when it does not end in a newline |
| Admin.SpuriousPartition | vcf_admin.py:416-422 | spurious metadata and spurious tables are disjoint, and together with the matched names cover everything; `__METADATA__` is not spurious |
| Admin.PendingOfMeaning | vcf_admin.py:280-292 | exactly the non-spurious metadata with a marker is reported, with that marker |
| Admin.DoCheck | vcf_admin.py:280-292 | `do_check` returns the spurious metadata, the spurious tables and the pending collections |
| Admin.CheckOne | vcf_admin.py:285-290 | one turn of the `for m in metadata` loop |
| Admin.PendingAmongAdd | vcf_admin.py:285-290 | checking one more metadata document adds it exactly when it is matched and marked |
| Admin.DoingInitFirst | vcf_admin.py:287-290 | `doing_init` is reported in preference to `appending_filenames` |
| Admin.DoFixAll | vcf_admin.py:298-309 | `do_fix()` deletes the spurious metadata, drops the spurious tables and returns their counts |
| Admin.RemoveSpurious | vcf_admin.py:299-307 | the deletion and the drops together |
| Admin.DropAll | vcf_admin.py:306-307 | the `for table in bad_tables` loop drops exactly those tables |
| Admin.FixAllIdempotent | vcf_admin.py:298-309 | after `do_fix()` nothing is spurious, and the sentinel stays |
| Admin.FixAllKeepsCollections | vcf_admin.py:298-309 | `do_fix()` leaves every matched collection untouched |
| Admin.DoDelete | vcf_admin.py:378-386 | `do_delete` computes `DeleteSpec` |
| Admin.DeleteEffect | vcf_admin.py:378-386 | it returns whether the table existed, and if so removes the table and the metadata |
| Admin.DoFixOne | vcf_admin.py:311-353 | `do_fix(collection)` computes `FixOneSpec` |
| Admin.Revert | vcf_admin.py:331-351 | the append revert computes `RevertSpec` |
| Admin.FixOneChecks | vcf_admin.py:312-353 | `do_fix(collection)` raises `BadCollection` exactly for an invalid, missing or spurious collection; it returns `None` exactly for an unmarked one, which it leaves alone |
| Admin.RevertEffect | vcf_admin.py:331-351 | the revert returns the files and the bad samples, and replaces the metadata and the table by their reverts |
| Admin.DoCopy | vcf_admin.py:357-374 | `do_copy` computes `CopySpec` |
| Admin.CopyEffect | vcf_admin.py:357-374 | the copy succeeds exactly when the source exists, the destination does not, and the server accepts the destination's name. It then duplicates the table and the metadata and counts the documents. A refused destination name makes `table_create` raise `BadName`. On failure nothing changes |
| Admin.ListSpec | vcf_admin.py:267-276 | without a collection: the tables not starting with `__`; with one: its metadata exactly when the name is valid and the metadata exists |
| Admin.ListHidesMetaTable | vcf_admin.py:267-269 | the listing hides `__METADATA__` and shows every table with a valid name |
| Admin.CheckAndSelectDb | vcf_admin.py:391-405 | a database is selected exactly when its name is valid, it exists and it holds the sentinel; otherwise `BadDatabase` |

## Left out

- `vcf_private.py` and `vcf_index.py` are not part of this model. They are other scripts that use the same database.
- Argument parsing, the admin tool's `main` and the printing are left out: they are I/O around the modelled operations.
- Gzip and file opening are left out. A file's content is given as its sequence of lines.
- The loading percentage and the timing are left out. They are output only.
- `check_db_status` (database creation and the sentinel check when importing) is left out. The import is modelled on a database that already exists; the admin side's check is modelled by `CheckAndSelectDb`.
- The durability setting and `sync` are modelled as writes that succeed immediately. Concurrent jobs on the same collection are not modelled.
- Floats are recognised as literals and kept as text; their numeric value is not modelled.
- The standard INFO and FORMAT field tables are empty dictionaries in the source, so that tier of lookup is left out.
- Metadata documents whose id is a list are not modelled: every id is a string.
- ALT gets REF inserted in place, and GT is rewritten in place inside the record. The model computes new values; nothing reads the old ones afterwards.
- The caches after an exception: the model runs the whole join before the writes. The state of the caches after an aborted load may therefore hold more inferred keys than the script's interleaved run would. Nothing reads them after the abort.
- When only records whose CHROM sorts above the 18-tilde start value remain, the join selects nothing and yields empty groups forever. The model ends the join there, and merging that empty group raises `IndexError`, as in the script.
- Recovery.AppendLoadRecoverable: the exact revert is proved only when every document involved has a non-negative POS. With a negative POS, two records can share an id, as `Merge.NegativePosIdCollision` shows. The `Consistent` collection it starts from also has only non-negative positions.
- Recovery.ImportRecoverable: the same non-negative POS condition applies, through `PositionsNonNegative`.
- Recovery.AppendFailureFixed: the same condition, as the hypothesis that every merged document is `NewDoc`, which includes POS ≥ 0.
- Recovery.AppendTableAppended: the same `NewDoc` hypothesis.
- Recovery.AppendTableReverts: the same `NewDoc` hypothesis.
- Consistency.ImportConsistent: the same non-negative POS condition applies. `Consistent` itself includes POS ≥ 0 for every stored document, because the revert relies on ids being unique.
- Consistency.QuickLoadConsistent: the same condition, through `PositionsNonNegative`.
- Consistency.AppendLoadConsistent: the same condition, through `PositionsNonNegative`.
- Consistency.QuickBlocksConsistent: the same condition, as the `NewDoc` hypothesis on the merged documents.
- Consistency.AppendBlocksConsistent: the same condition, as the `NewDoc` hypothesis on the merged documents.
- RethinkDB's table names are checked for their characters (letters, digits, `_`, `-`) only. A length limit of the server is not modelled.
- `MergedMeta` replaces the headers dictionary of a file name that already exists rather than merging it deeply. The collision check makes this case unreachable.
- The scripts' `assert` statements are modelled as raising `AssertionError`, as Python does when run without `-O`.
- The order of lists returned by the server is modelled as sets and maps.
- `get_all()` with no keys is modelled as deleting nothing.
- A failed per-document write (an insert of an id that exists, a replace of a missing document) is modelled as reported and changing nothing. This follows RethinkDB's result object.
- `doing_init` is modelled as a flag, and its presence as the flag being true.
- The `__METADATA__` table itself is not among the collection tables. Dropping it or writing documents into it as a collection raises in the model. A real server would drop it. Under the sentinel it is never spurious (`Admin.SpuriousPartition`), so `do_fix()` does not try.

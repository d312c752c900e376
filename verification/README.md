# yacrd plucking and compression selection, modelled in Dafny

yacrd finds the regions of long sequencing reads that no overlap from
another read confirms ("bad regions"). Its `pluck` operation reads a FASTA
or FASTQ file and writes one new record per bad region worth keeping. The
new record is named `{read}_{start}_{end}` and holds the half-open slice
`[start, end)` of the read's bases and, for FASTQ, of its quality scores.
Around the file streams, yacrd sniffs compressed input by its first two
bytes and chooses the output compression.

This project models both pieces as pure functions over immutable values
and proves their properties:

- `regions.dfy` (module `Regions`): bad regions, and the per-record loop
  that decides which regions yield sub-records. The loop stops at the first
  region that runs past the sequence end and skips regions shorter than the
  minimum. `PlanByLoop` is that loop with `break` and `continue`, proved
  equal to the declarative `Plan`.
- `pluck.dfy` (module `Pluck`): FASTA and FASTQ records, the sub-records one
  record yields, the record loop shared by both formats, and the top-level
  `pluck` with its file-type checks and its default minimum of 50.
- `names.dfy` (module `ReadNames`): the `splitn(2, ' ')` split of a FASTQ name
  line, the `split_ascii_whitespace` lookup key, and sub-record names with a
  decoder. Decoding a name gives back the read name and the coordinates.
- `decimal.dfy` (module `Decimal`): how `{}` writes an unsigned number, and
  its inverse.
- `compression.dfy` (module `Compression`): `get_compression`,
  `choose_compression`, and the format that `get_input` reports.
- `fixtures.dfy` (module `PluckFixtures`): the unit tests of
  `src/editor/pluck.rs`, stated as lemmas about the model.
- `wrappers.dfy` (module `Wrappers`): `Option` and `Result`.

The collaborators are parameters:

- The bad-region store (`stack::BadPart`) is a function `lookup` from a read
  name to its bad regions and length. `None` stands for the store's error,
  which aborts the run.
- The read classifier (`editor::type_of_read` with its `not_covered`
  threshold) is a function `typeOf` from a read's length and bad regions to
  its `ReadType`.
- The file type that `util::get_file_type` derives from the path is an input.
- The records are the values a FASTA or FASTQ reader yields.

A run is a `Run` value: the records written, plus the error that stopped it
early, if any. Records written before that error are kept, because the
buffered writer flushes what it holds when it is dropped.

Unknown reads: in the unit tests, reads "2" and "3" are never added to the
store, yet `fasta(...).unwrap()` succeeds and writes nothing for them
(src/editor/pluck.rs:212-225). So lookup stays an abstract parameter, and
the fixtures give those reads an empty bad-region list.

## Model

| member | source | states |
|---|---|---|
| Regions.FirstOutOfRange | src/editor/pluck.rs:83-88 | index of the first region with `start > len` or `end > len`: all earlier regions fit, the one at the index does not |
| Regions.KeepLong | src/editor/pluck.rs:90-93 | a region survives the length filter iff it is in the input and `end - start >= minimum` |
| Regions.Plan | src/editor/pluck.rs:82-93 | a region yields a sub-record iff it occurs before the first misfit and is long enough; every such region fits in the sequence |
| Regions.PlanByLoop | src/editor/pluck.rs:82-109 | the loop with `break` on a misfit and `continue` on a short region keeps exactly the regions `Plan` describes |
| Regions.PlanStopsAtOutOfRange | src/editor/pluck.rs:83-88 | once a region runs past the end, no later region contributes, however long |
| Regions.BoundsCheckedBeforeMinimum | src/editor/pluck.rs:83-93 | a short misfit still stops the record: the bounds check comes before the length filter |
| Regions.EndAtLengthKept | src/editor/pluck.rs:83-85 | a region ending exactly at the sequence length is kept |
| Regions.PlanAllInBounds | src/editor/pluck.rs:83-93 | when every region fits, only the length filter acts |
| Regions.KeepLongTwice | src/editor/pluck.rs:90-93 | filtering with a lower and then a higher minimum equals filtering with the higher one: raising the minimum only removes sub-records |
| Regions.KeepLongZero | src/editor/pluck.rs:90-93 | with minimum 0 the length filter keeps every region |
| Regions.KeepLongAppend | src/editor/pluck.rs:82-93 | the length filter over `a` followed by `b` is the filter over `a` followed by the filter over `b`: every region is judged on its own, and the kept ones keep their input order and multiplicity |
| Regions.KeepLongOrdered | src/editor/pluck.rs:82 | the length filter keeps left-to-right, non-overlapping regions in that order |
| Regions.PlanOrdered | src/editor/pluck.rs:82 | regions that come left to right yield sub-record regions that come left to right |
| Pluck.Skipped | src/editor/pluck.rs:79-80 | (predicate, used by the rows below) a read is skipped when it is `NotCovered` or has no bad region |
| Pluck.NothingWritten | src/editor/pluck.rs:79-93 | a FASTA or FASTQ record writes nothing iff it is skipped or no region survives the bounds check and the length filter |
| Pluck.FastaPiece | src/editor/pluck.rs:95-105 | a FASTA sub-record's name decodes to the read name and the region, and its bases are the region's slice, `end - start` long |
| Pluck.FastaPieces | src/editor/pluck.rs:79-109 | a `NotCovered` read or one with no bad region yields nothing; otherwise exactly one sub-record per planned region, so no more sub-records than regions, each at least `minimum` and at most the read long |
| Pluck.FastaPiecesSound | src/editor/pluck.rs:82-105 | every FASTA sub-record's name decodes to the read name and a region `[s, e)` with `s <= e <= len` and `e - s >= minimum`; its sequence is exactly that slice; and it is the sub-record of a long-enough bad region that comes before the first misfit |
| Pluck.FastaPiecesComplete | src/editor/pluck.rs:82-109 | every long-enough region before the first misfit yields its sub-record, unless the read is skipped |
| Pluck.FastaPiecesInRegionOrder | src/editor/pluck.rs:82-109 | for left-to-right bad regions, each sub-record's region ends before the next one's starts |
| Pluck.FastqPiece | src/editor/pluck.rs:164-173 | a FASTQ sub-record keeps the read's description, its identifier decodes to the read identifier and the region, and its bases and quality scores are both the region's slice |
| Pluck.FastqPieces | src/editor/pluck.rs:144-177 | the FASTQ counterpart of `FastaPieces`: nothing for a skipped read, otherwise exactly one sub-record per planned region, each at least `minimum` and at most the read long |
| Pluck.FastqPiecesSound | src/editor/pluck.rs:147-172 | every FASTQ sub-record keeps the original description, its identifier decodes to the read identifier and a region, its bases and quality scores are both exactly that slice, and it is the sub-record of a long-enough bad region that comes before the first misfit |
| Pluck.FastqPiecesComplete | src/editor/pluck.rs:151-177 | every long-enough region before the first misfit yields its FASTQ sub-record, unless the read is skipped |
| Pluck.FastqPiecesInRegionOrder | src/editor/pluck.rs:151-176 | for left-to-right bad regions, each FASTQ sub-record's region, decoded from the identifier, ends before the next one's starts |
| Pluck.FastaKey | src/editor/pluck.rs:75 | a FASTA read is always looked up under its whole name |
| Pluck.FastqKey | src/editor/pluck.rs:135-139 | a FASTQ read has no lookup key iff its name line is all ASCII whitespace; otherwise the key is non-empty and whitespace-free |
| Pluck.RunRecords | src/editor/pluck.rs:70-80 | the record loop fails iff some record has no lookup key or the store cannot answer for it, and it reports such a record |
| Pluck.RunAppend | src/editor/pluck.rs:70-111 | running `a ++ b` writes `a`'s output and then `b`'s; a failure in `a` ends the run there |
| Pluck.RunStopsAtFirstFailure | src/editor/pluck.rs:70-75 | a failing run keeps exactly what the records before the first unservable one wrote, and reports that record |
| Pluck.RunWithoutBadRegions | src/editor/pluck.rs:79-80 | records whose bad-region list is empty write nothing |
| Pluck.PluckFasta | src/editor/pluck.rs:56-114 | a FASTA run can only stop on a read the store cannot answer for, and it completes iff the store answers for every record name |
| Pluck.PluckFastq | src/editor/pluck.rs:116-182 | a FASTQ run stops on a blank name line only if there is one, and it completes iff every record has a lookup token that the store answers for |
| Pluck.RefuseFileType | src/editor/pluck.rs:26-51 | only FASTA and FASTQ are plucked; PAF, M4 and yacrd files fail with `CantRunOperationOnFile("plucking", type, path)`; unknown and yacrd-overlap files fail with `UnableToDetectFileFormat(path)` |
| Pluck.Pluck | src/editor/pluck.rs:12-54 | plucking fails exactly when the file type is refused, with that error, and otherwise runs the loop for the file's format |
| Pluck.PluckDefaultMinimum | src/editor/pluck.rs:23-24 | giving no minimum is the same as giving 50 |
| ReadNames.SplitName | src/editor/pluck.rs:147-149 | the identifier has no space; a description exists iff the line has a space; identifier, space and description rebuild the line |
| ReadNames.SplitJoin | src/editor/pluck.rs:147-149 | splitting a joined identifier and description gives them back |
| ReadNames.FirstToken | src/editor/pluck.rs:135-139 | the lookup key is absent iff the line is all ASCII whitespace; otherwise it is the first maximal whitespace-free run after the leading whitespace |
| ReadNames.TokenAgreesWithSplit | src/editor/pluck.rs:135-149 | the lookup key equals the output identifier when the line does not start with whitespace and contains no whitespace other than spaces |
| ReadNames.TokenDiffersFromSplitOnTab | src/editor/pluck.rs:135-149 | with a tab in the name line, the read is looked up as "r1" but its sub-records are named after "r1\tx" |
| ReadNames.PluckNameRoundTrip | src/editor/pluck.rs:98 | a `{name}_{start}_{end}` name decodes back to the name and both coordinates, even when the name has underscores |
| ReadNames.PluckNameInjective | src/editor/pluck.rs:166-168 | two sub-record names are equal only if the read name and both coordinates are equal |
| ReadNames.PluckName | src/editor/pluck.rs:98 | a sub-record name starts with the read name followed by `_`, and has no space when the read name has none |
| ReadNames.FastqPluckName | src/editor/pluck.rs:166-169 | a FASTQ sub-record name line splits back into the plucked identifier and the original description |
| Decimal.ToDecimal | src/editor/pluck.rs:98 | `{}` writes a non-empty digit string with no leading zero, and "0" exactly for zero |
| Decimal.DecimalRoundTrip | src/editor/pluck.rs:98 | parsing what `{}` wrote gives the number back |
| Decimal.ToDecimalOfParse | src/editor/pluck.rs:98 | every canonical digit string is what `{}` writes for its value |
| Compression.GetCompression | src/file.rs:68-79 | `1F 8B` is gzip, `42 5A` is bzip2, `FD 37` is LZMA, each iff the first two bytes are that pair; any other pair is no compression |
| Compression.GetCompressionLooksAtTwoBytes | src/file.rs:69-73 | streams that agree on their first two bytes get the same format |
| Compression.MagicIsRecognised | src/file.rs:32-38 | a stream starting with a format's enum value, written big-endian, is recognised as that format |
| Compression.GetInput | src/file.rs:40-59 | "-" is never sniffed and is always uncompressed; any other input reports the sniffed format |
| Compression.ChooseCompression | src/file.rs:90-101 | with no choice set, the input's format is kept whatever the value; with a choice set, "gzip", "bzip" and "lzma" select their format iff named, and anything else means no compression |
| Compression.ChooseNamedFormat | src/file.rs:95-98 | naming a compressed format selects it, whatever the input used |
| Compression.Bzip2NameIsNotBzip | src/file.rs:95-100 | the name "bzip2" selects no compression |
| PluckFixtures.FastaKeepBeginEnd | src/editor/pluck.rs:210-226 | bad regions (0,4), (9,13), (18,22) of read "1" with minimum 2 give `1_0_4`, `1_9_13`, `1_18_22`, each "ACTG" |
| PluckFixtures.FastaKeepMiddle | src/editor/pluck.rs:232-248 | bad region (4,18) with minimum 2 gives `1_4_18` with "GGGGGACTGGGGGG" |
| PluckFixtures.FastqKeepBeginEnd | src/editor/pluck.rs:278-294 | the FASTQ version of the first test, with four quality scores per sub-record |
| PluckFixtures.FastqKeepMiddle | src/editor/pluck.rs:302-318 | the FASTQ version of the second test |
| PluckFixtures.FastqKeepNoneTooShort | src/editor/pluck.rs:322-338 | with minimum 50 the 14-base region is too short and nothing is written |

## Left out

- The bad-region store (`stack::BadPart`, `get_bad_part`) and the overlap
  store behind it are not part of this model. Their answers are the
  `lookup` parameter, and the fixtures take the test regions as given.
- `editor::type_of_read` is not part of this model. It uses a
  floating-point ratio, and it is the `typeOf` parameter here. Only
  `ReadType.NotCovered` appears in the plucking code. `PartiallyBad` and
  `FullyCovered` are placeholders for the classifier's other outcomes,
  which plucking treats alike.
- Parsing and writing FASTA/FASTQ with `noodles`, the buffered readers and
  writers, reading and writing errors, and the `anyhow` error context with
  the file name are I/O. Records are plain values, and a run's output is a
  sequence.
- FASTA sub-records are written with `Definition::new(name, None)`
  (src/editor/pluck.rs:97-100), so a FASTA header's description is dropped,
  while FASTQ sub-records keep theirs. `FastaRecord` has no description
  field, so the model neither carries nor drops one.
- The `error!` log line for an out-of-range region is a side effect and is
  not modelled. Only its effect, stopping that record, is.
- `std::str::from_utf8` on FASTQ names cannot fail here, since names are
  Dafny strings.
- Region: bad regions satisfy `start <= end` by type. Otherwise the `u32`
  subtraction and the slice would panic.
- FastqRecord: quality and bases have equal length by type. Otherwise
  slicing the quality scores could panic.
- Pluck.PluckFastq: the panic of `unwrap()` on a blank FASTQ name line is
  modelled as the run failing with `MissingReadName`.
- Pluck.Pluck: it takes the records a reader of the detected format
  produced, and requires that they are of that format. `util::read_file`,
  `util::write_file` and `util::get_file_type` are not part of this model,
  and neither is the output stream's compression that follows the input's.
- Pluck.Pluck: a run that stops on a lookup failure is reported inside
  `Success` as a `Run` with its failure set. The source returns that error
  from `pluck`.
- Compression.GetCompression: it requires at least two bytes. On a shorter
  stream, the source ignores the `read_exact` error and inspects a buffer
  whose contents are unspecified.
- `get_readable`, `get_writable`, `get_output` and the gzip, bzip2 and xz
  encoders and decoders are file handles and compression libraries. Only
  the format `get_input` reports is modelled.
- Compression.GetInput: it returns only the detected format, not the
  decoding reader. Failing to open the file is not modelled.
- `inc/analysis.hpp` holds only declarations, with no behaviour to model.

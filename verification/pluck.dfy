/** Plucking: for every record of a FASTA or FASTQ file, cut out the
    sub-sequences covering its bad regions and write them as new records
    named after the read and the region's coordinates. */
module Pluck {
  import opened Wrappers
  import opened Regions
  import opened ReadNames

  /** How the read classifier judged a read. Plucking only distinguishes
      `NotCovered` (the read is skipped as a whole) from the rest. */
  datatype ReadType = NotCovered | PartiallyBad | FullyCovered

  /** What the bad-region store answers for one read: its bad regions, in
      order, and the read length the alignments reported. */
  datatype BadPart = BadPart(regions: seq<Region>, length: nat)

  datatype FastaRecord = FastaRecord(name: string, sequence: string)

  datatype FastqEntry = FastqEntry(name: string, sequence: string, quality: string)

  /** A FASTQ record has one quality score per base. */
  type FastqRecord = r: FastqEntry | |r.quality| == |r.sequence| witness FastqEntry("", "", "")

  datatype FileType = Fasta | Fastq | Paf | M4 | Yacrd | YacrdOverlap

  datatype PluckError =
    | CantRunOperationOnFile(operation: string, filetype: FileType, filename: string)
    | UnableToDetectFileFormat(filename: string)
      /** The bad-region store could not answer for this read. */
    | BadPartUnavailable(id: string)
      /** A FASTQ name line with no token to look the read up by. */
    | MissingReadName

  /** Minimum bad-region length used when the caller gives none. */
  const DefaultMinimum: u32 := 50

  /** A record yields nothing when the read is not covered at all or has no
      bad region. */
  predicate Skipped(rtype: ReadType, regions: seq<Region>) {
    rtype == NotCovered || |regions| == 0
  }

  // ---------------------------------------------------------------------------
  // One FASTA record

  /** The sub-record cut from `rec` at region `r`: its name decodes to the
      read name and the region, and its bases are the region's slice. */
  function FastaPiece(rec: FastaRecord, r: Region): (o: FastaRecord)
    requires InBounds(r, |rec.sequence|)
    ensures ParsePluckName(o.name) == Some((rec.name, r.start as nat, r.end as nat))
    ensures o.sequence == rec.sequence[r.start..r.end] && |o.sequence| == Width(r)
  {
    PluckNameRoundTrip(rec.name, r.start, r.end);
    FastaRecord(PluckName(rec.name, r.start, r.end), rec.sequence[r.start..r.end])
  }

  /** The sub-records one FASTA record yields, given its classification and
      its bad regions. */
  function FastaPieces(rec: FastaRecord, rtype: ReadType, regions: seq<Region>, minimum: u32)
    : (out: seq<FastaRecord>)
    ensures Skipped(rtype, regions) ==> out == []
    ensures !Skipped(rtype, regions) ==> |out| == |Plan(regions, |rec.sequence|, minimum)|
    ensures |out| <= |regions|
    ensures forall k :: 0 <= k < |out| ==> minimum <= |out[k].sequence| <= |rec.sequence|
  {
    if Skipped(rtype, regions) then []
    else
      var plan := Plan(regions, |rec.sequence|, minimum);
      assert forall k :: 0 <= k < |plan| ==> plan[k] in plan;
      seq(|plan|, k requires 0 <= k < |plan| => FastaPiece(rec, plan[k]))
  }

  /** `o` is a sub-record of `rec`: its name decodes to `rec`'s name and a
      region at least `minimum` long inside `rec`, and its sequence is exactly
      that slice of `rec`'s sequence. */
  predicate CutFrom(o: FastaRecord, rec: FastaRecord, minimum: nat) {
    match ParsePluckName(o.name)
    case None => false
    case Some((n, s, e)) =>
      && n == rec.name
      && s <= e <= |rec.sequence|
      && e - s >= minimum
      && o.sequence == rec.sequence[s..e]
  }

  /** Every FASTA sub-record is the slice its name announces, and is cut
      from a long-enough bad region that comes before the first misfit. */
  lemma FastaPiecesSound(rec: FastaRecord, rtype: ReadType, regions: seq<Region>, minimum: u32)
    ensures forall o :: o in FastaPieces(rec, rtype, regions, minimum) ==> CutFrom(o, rec, minimum)
    ensures forall o :: o in FastaPieces(rec, rtype, regions, minimum) ==>
      exists i :: 0 <= i < FirstOutOfRange(regions, |rec.sequence|) && Width(regions[i]) >= minimum
                  && o == FastaPiece(rec, regions[i])
  {
    var out := FastaPieces(rec, rtype, regions, minimum);
    if !Skipped(rtype, regions) {
      var plan := Plan(regions, |rec.sequence|, minimum);
      forall k | 0 <= k < |out|
        ensures CutFrom(out[k], rec, minimum)
        ensures exists i :: 0 <= i < FirstOutOfRange(regions, |rec.sequence|) && Width(regions[i]) >= minimum
                            && out[k] == FastaPiece(rec, regions[i])
      {
        assert plan[k] in plan;
      }
    }
  }

  /** Every long-enough region before the first misfit yields its sub-record,
      unless the whole record is skipped. */
  lemma FastaPiecesComplete(rec: FastaRecord, rtype: ReadType, regions: seq<Region>, minimum: u32, i: nat)
    requires !Skipped(rtype, regions)
    requires i < FirstOutOfRange(regions, |rec.sequence|) && Width(regions[i]) >= minimum
    ensures FastaPiece(rec, regions[i]) in FastaPieces(rec, rtype, regions, minimum)
  {
    var plan := Plan(regions, |rec.sequence|, minimum);
    assert regions[i] in plan;
    var k :| 0 <= k < |plan| && plan[k] == regions[i];
    assert FastaPieces(rec, rtype, regions, minimum)[k] == FastaPiece(rec, regions[i]);
  }

  /** The coordinates a plucked FASTA name announces. */
  function Coordinates(o: FastaRecord): Option<(nat, nat)> {
    match ParsePluckName(o.name)
    case None => None
    case Some((_, s, e)) => Some((s, e))
  }

  /** When the bad regions come left to right, so do the sub-records: each
      one's region ends before the next one's starts. */
  lemma FastaPiecesInRegionOrder(rec: FastaRecord, rtype: ReadType, regions: seq<Region>, minimum: u32)
    requires Ordered(regions)
    ensures var out := FastaPieces(rec, rtype, regions, minimum);
      forall k1, k2 :: 0 <= k1 < k2 < |out| ==>
        Coordinates(out[k1]).Some? && Coordinates(out[k2]).Some? &&
        Coordinates(out[k1]).value.1 <= Coordinates(out[k2]).value.0
  {
    var out := FastaPieces(rec, rtype, regions, minimum);
    if !Skipped(rtype, regions) {
      var plan := Plan(regions, |rec.sequence|, minimum);
      PlanOrdered(regions, |rec.sequence|, minimum);
      forall k | 0 <= k < |out| ensures Coordinates(out[k]) == Some((plan[k].start as nat, plan[k].end as nat)) {
        PluckNameRoundTrip(rec.name, plan[k].start, plan[k].end);
      }
    }
  }

  // ---------------------------------------------------------------------------
  // One FASTQ record

  /** The FASTQ sub-record cut from `rec` at region `r`: split at its first
      space, its name gives an identifier that decodes to the read identifier
      and the region, and the read's own description; its bases and quality
      scores are both the region's slice. */
  function FastqPiece(rec: FastqRecord, r: Region): (o: FastqRecord)
    requires InBounds(r, |rec.sequence|)
    ensures var line := SplitName(rec.name);
      && SplitName(o.name).description == line.description
      && ParsePluckName(SplitName(o.name).name) == Some((line.name, r.start as nat, r.end as nat))
    ensures o.sequence == rec.sequence[r.start..r.end] && |o.sequence| == Width(r)
    ensures o.quality == rec.quality[r.start..r.end]
  {
    var line := SplitName(rec.name);
    var o := FastqEntry(FastqPluckName(line, r.start, r.end),
                        rec.sequence[r.start..r.end], rec.quality[r.start..r.end]);
    assert SplitName(o.name).name == PluckName(line.name, r.start, r.end);
    PluckNameRoundTrip(line.name, r.start, r.end);
    o
  }

  /** The sub-records one FASTQ record yields. The name line is split at its
      first space and the description carried over to every sub-record. */
  function FastqPieces(rec: FastqRecord, rtype: ReadType, regions: seq<Region>, minimum: u32)
    : (out: seq<FastqRecord>)
    ensures Skipped(rtype, regions) ==> out == []
    ensures !Skipped(rtype, regions) ==> |out| == |Plan(regions, |rec.sequence|, minimum)|
    ensures |out| <= |regions|
    ensures forall k :: 0 <= k < |out| ==> minimum <= |out[k].sequence| <= |rec.sequence|
  {
    if Skipped(rtype, regions) then []
    else
      var plan := Plan(regions, |rec.sequence|, minimum);
      assert forall k :: 0 <= k < |plan| ==> plan[k] in plan;
      seq(|plan|, k requires 0 <= k < |plan| => FastqPiece(rec, plan[k]))
  }

  /** `o` is a FASTQ sub-record of `rec`: same description, a name that
      decodes to `rec`'s identifier and a region at least `minimum` long, and
      bases and quality scores that are both exactly that slice. */
  predicate FastqCutFrom(o: FastqRecord, rec: FastqRecord, minimum: nat) {
    var line := SplitName(rec.name);
    var own := SplitName(o.name);
    && own.description == line.description
    && match ParsePluckName(own.name)
       case None => false
       case Some((n, s, e)) =>
         && n == line.name
         && s <= e <= |rec.sequence|
         && e - s >= minimum
         && o.sequence == rec.sequence[s..e]
         && o.quality == rec.quality[s..e]
  }

  /** Every FASTQ sub-record is the slice its name announces, for bases and
      quality scores alike, keeps the original description, and is cut from a
      long-enough bad region that comes before the first misfit. */
  lemma FastqPiecesSound(rec: FastqRecord, rtype: ReadType, regions: seq<Region>, minimum: u32)
    ensures forall o :: o in FastqPieces(rec, rtype, regions, minimum) ==> FastqCutFrom(o, rec, minimum)
    ensures forall o :: o in FastqPieces(rec, rtype, regions, minimum) ==>
      exists i :: 0 <= i < FirstOutOfRange(regions, |rec.sequence|) && Width(regions[i]) >= minimum
                  && o == FastqPiece(rec, regions[i])
  {
    var out := FastqPieces(rec, rtype, regions, minimum);
    if !Skipped(rtype, regions) {
      var plan := Plan(regions, |rec.sequence|, minimum);
      forall k | 0 <= k < |out|
        ensures FastqCutFrom(out[k], rec, minimum)
        ensures exists i :: 0 <= i < FirstOutOfRange(regions, |rec.sequence|) && Width(regions[i]) >= minimum
                            && out[k] == FastqPiece(rec, regions[i])
      {
        assert plan[k] in plan;
      }
    }
  }

  /** Every long-enough region before the first misfit yields its FASTQ
      sub-record, unless the whole record is skipped. */
  lemma FastqPiecesComplete(rec: FastqRecord, rtype: ReadType, regions: seq<Region>, minimum: u32, i: nat)
    requires !Skipped(rtype, regions)
    requires i < FirstOutOfRange(regions, |rec.sequence|) && Width(regions[i]) >= minimum
    ensures FastqPiece(rec, regions[i]) in FastqPieces(rec, rtype, regions, minimum)
  {
    var plan := Plan(regions, |rec.sequence|, minimum);
    assert regions[i] in plan;
    var k :| 0 <= k < |plan| && plan[k] == regions[i];
    assert FastqPieces(rec, rtype, regions, minimum)[k] == FastqPiece(rec, regions[i]);
  }

  /** The coordinates a plucked FASTQ name announces, read from the part
      before its first space. */
  function FastqCoordinates(o: FastqRecord): Option<(nat, nat)> {
    match ParsePluckName(SplitName(o.name).name)
    case None => None
    case Some((_, s, e)) => Some((s, e))
  }

  /** When the bad regions come left to right, so do the FASTQ sub-records. */
  lemma FastqPiecesInRegionOrder(rec: FastqRecord, rtype: ReadType, regions: seq<Region>, minimum: u32)
    requires Ordered(regions)
    ensures var out := FastqPieces(rec, rtype, regions, minimum);
      forall k1, k2 :: 0 <= k1 < k2 < |out| ==>
        FastqCoordinates(out[k1]).Some? && FastqCoordinates(out[k2]).Some? &&
        FastqCoordinates(out[k1]).value.1 <= FastqCoordinates(out[k2]).value.0
  {
    var out := FastqPieces(rec, rtype, regions, minimum);
    if !Skipped(rtype, regions) {
      var plan := Plan(regions, |rec.sequence|, minimum);
      PlanOrdered(regions, |rec.sequence|, minimum);
      assert forall k :: 0 <= k < |out| ==>
        FastqCoordinates(out[k]) == Some((plan[k].start as nat, plan[k].end as nat));
    }
  }

  /** A record writes nothing exactly when it is skipped outright (a
      `NotCovered` read or no bad region) or when no region survives the
      bounds check and the length filter; this holds for both formats. */
  lemma NothingWritten(fa: FastaRecord, fq: FastqRecord, rtype: ReadType, regions: seq<Region>, minimum: u32)
    ensures FastaPieces(fa, rtype, regions, minimum) == [] <==>
      Skipped(rtype, regions) || Plan(regions, |fa.sequence|, minimum) == []
    ensures FastqPieces(fq, rtype, regions, minimum) == [] <==>
      Skipped(rtype, regions) || Plan(regions, |fq.sequence|, minimum) == []
  {
  }

  // ---------------------------------------------------------------------------
  // A whole file

  /** What a run wrote, and the error that ended it early, if any. Records
      written before the error stay written. */
  datatype Run<R> = Run(written: seq<R>, failure: Option<PluckError>)

  /** Everything one pass over a file needs besides the records: how a
      record is looked up, the bad-region store, the read classifier, the
      minimum region length and the per-record extraction. */
  datatype Plucker<!R> = Plucker(
    keyOf: R -> Option<string>,
    lookup: string -> Option<BadPart>,
    typeOf: (nat, seq<Region>) -> ReadType,
    minimum: u32,
    pieces: (R, ReadType, seq<Region>, u32) -> seq<R>)

  /** A record can be served when it has a lookup key and the store answers
      for that key. */
  predicate Served<R>(rec: R, p: Plucker<R>) {
    p.keyOf(rec).Some? && p.lookup(p.keyOf(rec).value).Some?
  }

  /** The error a record that cannot be served stops the run with. */
  function Unserved<R>(rec: R, p: Plucker<R>): PluckError {
    if p.keyOf(rec).None? then MissingReadName else BadPartUnavailable(p.keyOf(rec).value)
  }

  /** The record loop shared by FASTA and FASTQ: look every record up in
      turn, classify it, write its sub-records, and stop at the first record
      that cannot be looked up. */
  function RunRecords<R>(records: seq<R>, p: Plucker<R>): (run: Run<R>)
    ensures run.failure.None? <==> forall i :: 0 <= i < |records| ==> Served(records[i], p)
    ensures run.failure.Some? ==> exists i :: 0 <= i < |records| && run.failure.value == Unserved(records[i], p)
  {
    if |records| == 0 then Run([], None)
    else
      match p.keyOf(records[0])
      case None => Run([], Some(MissingReadName))
      case Some(id) =>
        match p.lookup(id)
        case None => Run([], Some(BadPartUnavailable(id)))
        case Some(bp) =>
          var rest := RunRecords(records[1..], p);
          assert forall i :: 1 <= i < |records| ==> records[i] == records[1..][i - 1];
          var out := p.pieces(records[0], p.typeOf(bp.length, bp.regions), bp.regions, p.minimum);
          Run(out + rest.written, rest.failure)
  }

  /** Running two files one after the other is running their concatenation:
      output follows input record order, and a failure ends everything
      after it. */
  lemma {:induction false} RunAppend<R>(a: seq<R>, b: seq<R>, p: Plucker<R>)
    ensures var ra := RunRecords(a, p);
      RunRecords(a + b, p)
        == if ra.failure.Some? then ra
           else var rb := RunRecords(b, p); Run(ra.written + rb.written, rb.failure)
    decreases |a|
  {
    if |a| > 0 {
      assert (a + b)[0] == a[0];
      assert (a + b)[1..] == a[1..] + b;
      RunAppend(a[1..], b, p);
    } else {
      assert a + b == b;
    }
  }

  /** A run that fails keeps exactly what the records before the first
      unservable one produced, and reports that record. */
  lemma RunStopsAtFirstFailure<R>(records: seq<R>, p: Plucker<R>, k: nat)
    requires k < |records| && !Served(records[k], p)
    requires forall i :: 0 <= i < k ==> Served(records[i], p)
    ensures RunRecords(records, p) == Run(RunRecords(records[..k], p).written, Some(Unserved(records[k], p)))
  {
    var front, back := records[..k], records[k..];
    assert records == front + back;
    assert forall i :: 0 <= i < k ==> front[i] == records[i];
    var ra := RunRecords(front, p);
    assert ra.failure.None?;
    RunAppend(front, back, p);
    assert back[0] == records[k];
    var rb := RunRecords(back, p);
    assert rb == Run([], Some(Unserved(records[k], p)));
    assert ra.written + rb.written == ra.written;
  }

  /** A record the store answers for with no bad region writes nothing. */
  lemma RunWithoutBadRegions<R>(records: seq<R>, p: Plucker<R>)
    requires forall rec, rt, m :: p.pieces(rec, rt, [], m) == []
    requires forall i :: 0 <= i < |records| ==>
      Served(records[i], p) && p.lookup(p.keyOf(records[i]).value).value.regions == []
    ensures RunRecords(records, p) == Run([], None)
  {
  }

  /** FASTA reads are looked up by their name, verbatim; there always is one. */
  function FastaKey(rec: FastaRecord): (key: Option<string>)
    ensures key == Some(rec.name)
  {
    Some(rec.name)
  }

  /** FASTQ reads are looked up by the first whitespace-separated token of
      the name line; a blank line has none. */
  function FastqKey(rec: FastqRecord): (key: Option<string>)
    ensures key.None? <==> forall k :: 0 <= k < |rec.name| ==> IsAsciiWhitespace(rec.name[k])
    ensures key.Some? ==> |key.value| > 0 && NoAsciiWhitespace(key.value)
  {
    FirstToken(rec.name)
  }

  /** Plucking a FASTA file. FASTA records are looked up by their name, so a
      run can only stop on a read the store cannot answer for. */
  function PluckFasta(records: seq<FastaRecord>, minimum: u32,
                      lookup: string -> Option<BadPart>, typeOf: (nat, seq<Region>) -> ReadType)
    : (run: Run<FastaRecord>)
    ensures run.failure.Some? ==> run.failure.value.BadPartUnavailable?
    ensures run.failure.None? <==> forall i :: 0 <= i < |records| ==> lookup(records[i].name).Some?
  {
    RunRecords(records, Plucker(FastaKey, lookup, typeOf, minimum, FastaPieces))
  }

  /** Plucking a FASTQ file. A blank name line stops the run. */
  function PluckFastq(records: seq<FastqRecord>, minimum: u32,
                      lookup: string -> Option<BadPart>, typeOf: (nat, seq<Region>) -> ReadType)
    : (run: Run<FastqRecord>)
    ensures run.failure == Some(MissingReadName) ==>
      exists i :: 0 <= i < |records| && FirstToken(records[i].name).None?
    ensures run.failure.None? <==>
      forall i :: 0 <= i < |records| ==>
        FirstToken(records[i].name).Some? && lookup(FirstToken(records[i].name).value).Some?
  {
    RunRecords(records, Plucker(FastqKey, lookup, typeOf, minimum, FastqPieces))
  }

  // ---------------------------------------------------------------------------
  // The `pluck` operation

  /** Why a file of this type cannot be plucked, if it cannot: alignment
      files are refused, and so is a file whose type is unknown. */
  function RefuseFileType(inputPath: string, fileType: Option<FileType>): (r: Option<PluckError>)
    ensures r.None? <==> fileType == Some(Fasta) || fileType == Some(Fastq)
    ensures r == Some(UnableToDetectFileFormat(inputPath)) <==>
      fileType == None || fileType == Some(YacrdOverlap)
    ensures fileType == Some(Paf) || fileType == Some(M4) || fileType == Some(Yacrd) ==>
      r == Some(CantRunOperationOnFile("plucking", fileType.value, inputPath))
    ensures r.Some? && r.value.CantRunOperationOnFile? ==>
      r.value == CantRunOperationOnFile("plucking", fileType.value, inputPath)
  {
    match fileType
    case Some(Fasta) => None
    case Some(Fastq) => None
    case Some(Paf) => Some(CantRunOperationOnFile("plucking", Paf, inputPath))
    case Some(M4) => Some(CantRunOperationOnFile("plucking", M4, inputPath))
    case Some(Yacrd) => Some(CantRunOperationOnFile("plucking", Yacrd, inputPath))
    case Some(YacrdOverlap) => Some(UnableToDetectFileFormat(inputPath))
    case None => Some(UnableToDetectFileFormat(inputPath))
  }

  /** The records a reader for the file's type produced. */
  datatype SequenceFile = FastaFile(fasta: seq<FastaRecord>) | FastqFile(fastq: seq<FastqRecord>)

  datatype Plucked = FastaPlucked(fastaRun: Run<FastaRecord>) | FastqPlucked(fastqRun: Run<FastqRecord>)

  /** Plucks a sequence file, refusing alignment files and unknown types. */
  function Pluck(inputPath: string, fileType: Option<FileType>, minimum: Option<u32>,
                 input: SequenceFile, lookup: string -> Option<BadPart>,
                 typeOf: (nat, seq<Region>) -> ReadType)
    : (r: Result<Plucked, PluckError>)
    requires fileType == Some(Fasta) ==> input.FastaFile?
    requires fileType == Some(Fastq) ==> input.FastqFile?
    ensures r.Failure? <==> RefuseFileType(inputPath, fileType).Some?
    ensures r.Failure? ==> r.error == RefuseFileType(inputPath, fileType).value
    ensures r.Success? ==> (r.value.FastaPlucked? <==> fileType == Some(Fasta))
    ensures fileType == Some(Fasta) ==>
      r == Success(FastaPlucked(PluckFasta(input.fasta, minimum.GetOr(50), lookup, typeOf)))
    ensures fileType == Some(Fastq) ==>
      r == Success(FastqPlucked(PluckFastq(input.fastq, minimum.GetOr(50), lookup, typeOf)))
  {
    var m := minimum.GetOr(DefaultMinimum);
    match RefuseFileType(inputPath, fileType)
    case Some(e) => Failure(e)
    case None =>
      if fileType == Some(Fasta) then Success(FastaPlucked(PluckFasta(input.fasta, m, lookup, typeOf)))
      else Success(FastqPlucked(PluckFastq(input.fastq, m, lookup, typeOf)))
  }

  /** Giving no minimum is giving 50. */
  lemma PluckDefaultMinimum(inputPath: string, fileType: Option<FileType>, input: SequenceFile,
                            lookup: string -> Option<BadPart>, typeOf: (nat, seq<Region>) -> ReadType)
    requires fileType == Some(Fasta) ==> input.FastaFile?
    requires fileType == Some(Fastq) ==> input.FastqFile?
    ensures Pluck(inputPath, fileType, None, input, lookup, typeOf)
         == Pluck(inputPath, fileType, Some(50), input, lookup, typeOf)
  {
  }
}

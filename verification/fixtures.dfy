/** The plucking scenarios of the source's unit tests, stated on the model.
    The bad regions are what the bad-region computation reports for the test
    overlaps; reads "2" and "3" have no overlaps and the store answers for
    them with no bad region. */
module PluckFixtures {
  import opened Wrappers
  import opened Regions
  import opened ReadNames
  import opened Pluck

  const Read1: string := "ACTGGGGGGACTGGGGGGACTG"

  /** Overlaps (4,9) and (13,18) on the 22-base read "1" leave these gaps. */
  const BeginEnd: seq<Region> := [Span(0, 4), Span(9, 13), Span(18, 22)]

  /** Overlaps (0,4) and (18,22) leave this gap. */
  const Middle: seq<Region> := [Span(4, 18)]

  const FastqPluckedBeginEnd: seq<FastqRecord> :=
    [FastqEntry("1_0_4", "ACTG", "????"), FastqEntry("1_9_13", "ACTG", "????"),
     FastqEntry("1_18_22", "ACTG", "????")]

  const FastqPluckedMiddle: seq<FastqRecord> :=
    [FastqEntry("1_4_18", "GGGGGACTGGGGGG", "??????????????")]

  function Store(regions: seq<Region>): string -> Option<BadPart> {
    id => if id == "1" then Some(BadPart(regions, 22)) else Some(BadPart([], 0))
  }

  /** A classifier for which no test read is not covered (12 of 22 bases bad
      stay under the 0.8 threshold). */
  function Classify(length: nat, regions: seq<Region>): ReadType {
    PartiallyBad
  }

  function FastaInput(): seq<FastaRecord> {
    [FastaRecord("1", Read1), FastaRecord("2", "ACTG"), FastaRecord("3", "ACTG")]
  }

  function FastqInput(): seq<FastqRecord> {
    [FastqEntry("1", Read1, Quality1),
     FastqEntry("2", "ACTG", "????"), FastqEntry("3", "ACTG", "????")]
  }

  lemma PlanBeginEnd()
    ensures Plan(BeginEnd, 22, 2) == BeginEnd
  {
  }

  lemma PlanMiddle(minimum: u32)
    ensures Plan(Middle, 22, minimum) == if minimum <= 14 then Middle else []
  {
  }

  lemma KeepLongAllLong(rs: seq<Region>, minimum: nat)
    requires forall i :: 0 <= i < |rs| ==> Width(rs[i]) >= minimum
    ensures KeepLong(rs, minimum) == rs
  {
  }

  function FastaPass(regions: seq<Region>, minimum: u32): Plucker<FastaRecord> {
    Plucker(FastaKey, Store(regions), Classify, minimum, FastaPieces)
  }

  function FastqPass(regions: seq<Region>, minimum: u32): Plucker<FastqRecord> {
    Plucker(FastqKey, Store(regions), Classify, minimum, FastqPieces)
  }

  /** Splits a run of the three test records into read "1" and the rest,
      which write nothing. */
  lemma RunFixture<R>(input: seq<R>, p: Plucker<R>)
    requires |input| == 3
    requires forall rec, rt, m :: p.pieces(rec, rt, [], m) == []
    requires forall i :: 1 <= i < 3 ==>
      Served(input[i], p) && p.lookup(p.keyOf(input[i]).value).value.regions == []
    ensures RunRecords(input, p) == RunRecords(input[..1], p)
  {
    var rest := input[1..];
    assert input == input[..1] + rest;
    assert forall i :: 0 <= i < |rest| ==> rest[i] == input[i + 1];
    RunWithoutBadRegions(rest, p);
    RunAppend(input[..1], rest, p);
  }

  lemma Names()
    ensures PluckName("1", 0, 4) == "1_0_4"
    ensures PluckName("1", 9, 13) == "1_9_13"
    ensures PluckName("1", 18, 22) == "1_18_22"
    ensures PluckName("1", 4, 18) == "1_4_18"
  {
  }

  const Quality1: string := "??????????????????????"

  lemma Slices()
    ensures Read1[0..4] == "ACTG" && Read1[9..13] == "ACTG" && Read1[18..22] == "ACTG"
    ensures Read1[4..18] == "GGGGGACTGGGGGG"
    ensures Quality1[0..4] == Quality1[9..13] == Quality1[18..22] == "????"
    ensures Quality1[4..18] == "??????????????"
  {
  }

  lemma FastaRead1BeginEnd()
    ensures FastaPieces(FastaRecord("1", Read1), PartiallyBad, BeginEnd, 2)
         == [FastaRecord("1_0_4", "ACTG"), FastaRecord("1_9_13", "ACTG"),
             FastaRecord("1_18_22", "ACTG")]
  {
    PlanBeginEnd();
    Names();
    Slices();
  }

  /** Test `fasta_keep_begin_end`: three 4-base sub-records. */
  lemma FastaKeepBeginEnd()
    ensures PluckFasta(FastaInput(), 2, Store(BeginEnd), Classify)
         == Run([FastaRecord("1_0_4", "ACTG"), FastaRecord("1_9_13", "ACTG"),
                 FastaRecord("1_18_22", "ACTG")], None)
  {
    var p := FastaPass(BeginEnd, 2);
    var r1 := FastaRecord("1", Read1);
    RunFixture(FastaInput(), p);
    assert FastaInput()[..1] == [r1];
    FastaRead1BeginEnd();
    assert RunRecords([r1][1..], p) == Run([], None);
  }

  lemma FastaRead1Middle()
    ensures FastaPieces(FastaRecord("1", Read1), PartiallyBad, Middle, 2)
         == [FastaRecord("1_4_18", "GGGGGACTGGGGGG")]
  {
    PlanMiddle(2);
    Names();
    Slices();
  }

  /** Test `fasta_keep_middle`: one 14-base sub-record. */
  lemma FastaKeepMiddle()
    ensures PluckFasta(FastaInput(), 2, Store(Middle), Classify)
         == Run([FastaRecord("1_4_18", "GGGGGACTGGGGGG")], None)
  {
    var p := FastaPass(Middle, 2);
    var r1 := FastaRecord("1", Read1);
    RunFixture(FastaInput(), p);
    assert FastaInput()[..1] == [r1];
    FastaRead1Middle();
    assert RunRecords([r1][1..], p) == Run([], None);
  }

  /** The single-character names of the test reads are their own lookup key,
      and carry no description. */
  lemma ShortNames(name: string)
    requires |name| == 1 && !IsAsciiWhitespace(name[0])
    ensures FirstToken(name) == Some(name)
    ensures SplitName(name) == NameLine(name, None)
  {
    assert name[0..] == name;
    assert name[..1] == name;
    TokenLengthUnique(name, 1);
  }

  lemma FastqFixture(regions: seq<Region>, minimum: u32, expected: seq<FastqRecord>)
    requires FastqPieces(FastqInput()[0], PartiallyBad, regions, minimum) == expected
    ensures PluckFastq(FastqInput(), minimum, Store(regions), Classify) == Run(expected, None)
  {
    var p := FastqPass(regions, minimum);
    var input := FastqInput();
    ShortNames("1");
    ShortNames("2");
    ShortNames("3");
    assert input[1].name == "2" && input[2].name == "3";
    RunFixture(input, p);
    assert input[..1] == [input[0]];
    assert RunRecords([input[0]][1..], p) == Run([], None);
  }

  lemma FastqRead1Piece(r: Region, name: string)
    requires InBounds(r, |Read1|) && PluckName("1", r.start, r.end) == name
    ensures FastqPiece(FastqEntry("1", Read1, Quality1), r)
         == FastqEntry(name, Read1[r.start..r.end], Quality1[r.start..r.end])
  {
    ShortNames("1");
  }

  lemma FastqPiecesAt(rec: FastqRecord, regions: seq<Region>, minimum: u32, k: nat)
    requires |regions| > 0
    requires k < |Plan(regions, |rec.sequence|, minimum)|
    ensures var plan := Plan(regions, |rec.sequence|, minimum);
      plan[k] in plan && FastqPieces(rec, PartiallyBad, regions, minimum)[k] == FastqPiece(rec, plan[k])
  {
    var plan := Plan(regions, |rec.sequence|, minimum);
    assert plan[k] in plan;
  }

  lemma FastqRead1BeginEndAt(k: nat)
    requires k < 3
    ensures |FastqPieces(FastqEntry("1", Read1, Quality1), PartiallyBad, BeginEnd, 2)| == 3
    ensures FastqPieces(FastqEntry("1", Read1, Quality1), PartiallyBad, BeginEnd, 2)[k] == FastqPluckedBeginEnd[k]
  {
    var r1: FastqRecord := FastqEntry("1", Read1, Quality1);
    PlanBeginEnd();
    FastqPiecesAt(r1, BeginEnd, 2, k);
    Names();
    Slices();
    if k == 0 {
      FastqRead1Piece(Span(0, 4), "1_0_4");
    } else if k == 1 {
      FastqRead1Piece(Span(9, 13), "1_9_13");
    } else {
      FastqRead1Piece(Span(18, 22), "1_18_22");
    }
  }

  lemma FastqRead1BeginEnd()
    ensures FastqPieces(FastqEntry("1", Read1, Quality1), PartiallyBad, BeginEnd, 2) == FastqPluckedBeginEnd
  {
    var out := FastqPieces(FastqEntry("1", Read1, Quality1), PartiallyBad, BeginEnd, 2);
    forall k | 0 <= k < 3 ensures out[k] == FastqPluckedBeginEnd[k] {
      FastqRead1BeginEndAt(k);
    }
    FastqRead1BeginEndAt(0);
  }

  /** Test `fastq_keep_begin_end`: three 4-base sub-records, each with four
      quality scores. */
  lemma FastqKeepBeginEnd()
    ensures PluckFastq(FastqInput(), 2, Store(BeginEnd), Classify) == Run(FastqPluckedBeginEnd, None)
  {
    FastqRead1BeginEnd();
    FastqFixture(BeginEnd, 2, FastqPluckedBeginEnd);
  }

  /** Test `fastq_keep_middle`: one 14-base sub-record. */
  lemma FastqKeepMiddle()
    ensures PluckFastq(FastqInput(), 2, Store(Middle), Classify)
         == Run(FastqPluckedMiddle, None)
  {
    var r1: FastqRecord := FastqEntry("1", Read1, Quality1);
    assert FastqPieces(r1, PartiallyBad, Middle, 2) == FastqPluckedMiddle by {
      ShortNames("1");
      PlanMiddle(2);
      Names();
      Slices();
      assert FastqPiece(r1, Span(4, 18)) == FastqPluckedMiddle[0];
    }
    FastqFixture(Middle, 2, FastqPluckedMiddle);
  }

  /** Test `fastq_keep_none_too_short`: with the minimum at 50 the 14-base
      region is too short and nothing is written. */
  lemma FastqKeepNoneTooShort()
    ensures PluckFastq(FastqInput(), 50, Store(Middle), Classify) == Run([], None)
  {
    PlanMiddle(50);
    FastqFixture(Middle, 50, []);
  }
}

/** Bad regions of a read and the per-record selection loop of plucking:
    which regions of a record's bad-region list give sub-records. */
module Regions {

  /** Rust's `u32`. */
  type u32 = x: int | 0 <= x < 0x1_0000_0000

  /** A half-open interval `[start, end)` of read positions. */
  datatype Span = Span(start: u32, end: u32)

  /** A bad region as the bad-region store hands it out: `start <= end`, which
      both the `u32` subtraction and the slicing in the source rely on. */
  type Region = s: Span | s.start <= s.end witness Span(0, 0)

  function Width(r: Region): nat {
    r.end - r.start
  }

  /** Both ends lie within a sequence of length `len`; `end == len` is allowed.
      The negation is the source's "pluck position is larger than read". */
  predicate InBounds(r: Region, len: nat) {
    r.start <= len && r.end <= len
  }

  /** The regions appear left to right without overlapping, as the bad-region
      computation produces them. */
  predicate Ordered(rs: seq<Region>) {
    forall i, j :: 0 <= i < j < |rs| ==> rs[i].end <= rs[j].start
  }

  /** Position of the first region that does not fit in the sequence, or
      `|rs|` when they all fit. */
  function FirstOutOfRange(rs: seq<Region>, len: nat): (k: nat)
    ensures k <= |rs|
    ensures forall i :: 0 <= i < k ==> InBounds(rs[i], len)
    ensures k < |rs| ==> !InBounds(rs[k], len)
  {
    if |rs| == 0 || !InBounds(rs[0], len) then 0 else 1 + FirstOutOfRange(rs[1..], len)
  }

  /** The regions at least `minimum` long, in their original order. */
  function KeepLong(rs: seq<Region>, minimum: nat): (kept: seq<Region>)
    ensures |kept| <= |rs|
    ensures forall r :: r in kept <==> r in rs && Width(r) >= minimum
  {
    if |rs| == 0 then []
    else
      var last := rs[|rs| - 1];
      var front := KeepLong(rs[..|rs| - 1], minimum);
      assert rs == rs[..|rs| - 1] + [last];
      if Width(last) >= minimum then front + [last] else front
  }

  /** The regions of one record that become sub-records: those before the
      first region that runs past the sequence end, minus the short ones. */
  function Plan(rs: seq<Region>, len: nat, minimum: nat): (plan: seq<Region>)
    ensures |plan| <= |rs|
    ensures forall r :: r in plan ==> InBounds(r, len) && Width(r) >= minimum
    ensures forall r :: r in plan <==>
      exists i :: 0 <= i < FirstOutOfRange(rs, len) && rs[i] == r && Width(r) >= minimum
  {
    var k := FirstOutOfRange(rs, len);
    var plan := KeepLong(rs[..k], minimum);
    assert forall r :: r in rs[..k] <==> exists i :: 0 <= i < k && rs[i] == r;
    plan
  }

  /** The source's loop over one record's bad regions: stop at the first
      region past the sequence end, skip the short ones, keep the rest. */
  method PlanByLoop(rs: seq<Region>, len: nat, minimum: u32) returns (kept: seq<Region>)
    ensures kept == Plan(rs, len, minimum)
  {
    kept := [];
    var i := 0;
    while i < |rs|
      invariant i <= FirstOutOfRange(rs, len)
      invariant kept == KeepLong(rs[..i], minimum)
    {
      var interval := rs[i];
      if interval.start > len || interval.end > len {
        break;
      }
      assert rs[..i + 1][..i] == rs[..i];
      if interval.end - interval.start < minimum {
        i := i + 1;
        continue;
      }
      kept := kept + [interval];
      i := i + 1;
    }
  }

  /** Filtering twice keeps what the stricter filter keeps: raising the minimum
      only ever removes sub-records. */
  lemma {:induction false} KeepLongTwice(rs: seq<Region>, m1: nat, m2: nat)
    requires m1 <= m2
    ensures KeepLong(KeepLong(rs, m1), m2) == KeepLong(rs, m2)
    decreases |rs|
  {
    if |rs| > 0 {
      var front := rs[..|rs| - 1];
      var last := rs[|rs| - 1];
      KeepLongTwice(front, m1, m2);
      var k1 := KeepLong(front, m1);
      if Width(last) >= m1 {
        assert (k1 + [last])[..|k1 + [last]| - 1] == k1;
      }
    }
  }

  /** Filtering distributes over concatenation: each region is kept or
      dropped on its own width alone, so the kept regions of `a + b` are the
      kept regions of `a` followed by those of `b`, in order. */
  lemma {:induction false} KeepLongAppend(a: seq<Region>, b: seq<Region>, minimum: nat)
    ensures KeepLong(a + b, minimum) == KeepLong(a, minimum) + KeepLong(b, minimum)
    decreases |b|
  {
    if |b| == 0 {
      assert a + b == a;
    } else {
      var front := b[..|b| - 1];
      var last := b[|b| - 1];
      assert (a + b)[..|a + b| - 1] == a + front;
      assert (a + b)[|a + b| - 1] == last;
      KeepLongAppend(a, front, minimum);
      if Width(last) >= minimum {
        assert KeepLong(a, minimum) + KeepLong(front, minimum) + [last]
            == KeepLong(a, minimum) + (KeepLong(front, minimum) + [last]);
      }
    }
  }

  /** Filtering keeps the regions' left-to-right order. */
  lemma {:induction false} KeepLongOrdered(rs: seq<Region>, minimum: nat)
    requires Ordered(rs)
    ensures Ordered(KeepLong(rs, minimum))
    decreases |rs|
  {
    if |rs| > 0 {
      var front := rs[..|rs| - 1];
      var last := rs[|rs| - 1];
      assert Ordered(front);
      KeepLongOrdered(front, minimum);
      var kf := KeepLong(front, minimum);
      if Width(last) >= minimum {
        forall i | 0 <= i < |kf| ensures kf[i].end <= last.start {
          assert kf[i] in front;
        }
      }
    }
  }

  /** Sub-records come out in the order of the bad regions they were cut from. */
  lemma PlanOrdered(rs: seq<Region>, len: nat, minimum: nat)
    requires Ordered(rs)
    ensures Ordered(Plan(rs, len, minimum))
  {
    KeepLongOrdered(rs[..FirstOutOfRange(rs, len)], minimum);
  }

  /** When every region fits, only the minimum-length filter acts. */
  lemma PlanAllInBounds(rs: seq<Region>, len: nat, minimum: nat)
    requires forall i :: 0 <= i < |rs| ==> InBounds(rs[i], len)
    ensures Plan(rs, len, minimum) == KeepLong(rs, minimum)
  {
    var k := FirstOutOfRange(rs, len);
    assert k == |rs|;
    assert rs[..k] == rs;
  }

  /** A region that runs past the end hides every region after it, however
      long: the plan is the plan of the regions before it. */
  lemma PlanStopsAtOutOfRange(rs: seq<Region>, len: nat, minimum: nat, i: nat)
    requires i < |rs| && !InBounds(rs[i], len)
    ensures Plan(rs, len, minimum) == Plan(rs[..i], len, minimum)
  {
    var k := FirstOutOfRange(rs, len);
    var k' := FirstOutOfRange(rs[..i], len);
    assert forall m :: 0 <= m < i ==> rs[..i][m] == rs[m];
    assert k' == k;
    assert rs[..i][..k] == rs[..k];
  }

  /** The bounds check comes before the length filter: a one-base region past
      the end stops the record even though the length filter alone would have
      skipped it, so the long region after it is not kept. */
  lemma BoundsCheckedBeforeMinimum()
    ensures Plan([Span(11, 12), Span(0, 10)], 10, 5) == []
    ensures KeepLong([Span(11, 12), Span(0, 10)], 5) == [Span(0, 10)]
  {
  }

  /** A region ending exactly at the sequence end is kept. */
  lemma EndAtLengthKept()
    ensures Plan([Span(18, 22)], 22, 2) == [Span(18, 22)]
  {
  }

  /** With minimum 0 the length filter keeps every region. */
  lemma {:induction false} KeepLongZero(rs: seq<Region>)
    ensures KeepLong(rs, 0) == rs
    decreases |rs|
  {
    if |rs| > 0 {
      KeepLongZero(rs[..|rs| - 1]);
      assert rs == rs[..|rs| - 1] + [rs[|rs| - 1]];
    }
  }
}

/** Read names: how a FASTQ name line splits into identifier and description,
    which token is used to look the read up, and the `{name}_{start}_{end}`
    names given to plucked sub-records, with a decoder proving that such a
    name determines the original name and the coordinates. */
module ReadNames {
  import opened Wrappers
  import opened Decimal

  /** Index of the first occurrence of `c` in `s`. */
  function IndexOf(s: string, c: char): (r: Option<nat>)
    ensures r.Some? ==> r.value < |s| && s[r.value] == c
    ensures r.Some? ==> forall k :: 0 <= k < r.value ==> s[k] != c
    ensures r.None? <==> c !in s
  {
    if |s| == 0 then None
    else if s[0] == c then Some(0)
    else match IndexOf(s[1..], c)
      case None => None
      case Some(i) => Some(i + 1)
  }

  /** Index of the last occurrence of `c` in `s`. */
  function LastIndexOf(s: string, c: char): (r: Option<nat>)
    ensures r.Some? ==> r.value < |s| && s[r.value] == c
    ensures r.Some? ==> forall k :: r.value < k < |s| ==> s[k] != c
    ensures r.None? <==> c !in s
  {
    if |s| == 0 then None
    else if s[|s| - 1] == c then Some(|s| - 1)
    else LastIndexOf(s[..|s| - 1], c)
  }

  // ---------------------------------------------------------------------------
  // `splitn(2, ' ')` on a FASTQ name line

  /** A FASTQ name line split at its first space: the identifier, and the
      free-text description when the line had a space. */
  datatype NameLine = NameLine(name: string, description: Option<string>)

  /** The line a `NameLine` came from. */
  function JoinName(n: NameLine): string {
    match n.description
    case None => n.name
    case Some(d) => n.name + " " + d
  }

  /** `splitn(2, ' ')`: the name is everything before the first space, the
      description everything after it. */
  function SplitName(line: string): (n: NameLine)
    ensures ' ' !in n.name
    ensures n.description.None? <==> ' ' !in line
    ensures JoinName(n) == line
  {
    match IndexOf(line, ' ')
    case None => NameLine(line, None)
    case Some(i) =>
      assert line == line[..i] + " " + line[i + 1..];
      NameLine(line[..i], Some(line[i + 1..]))
  }

  /** Splitting a joined line gives back the same parts when the name has no
      space: the split is the inverse of the join. */
  lemma SplitJoin(n: NameLine)
    requires ' ' !in n.name
    ensures SplitName(JoinName(n)) == n
  {
    var line := JoinName(n);
    var m := SplitName(line);
    match n.description
    case None =>
    case Some(d) =>
      assert line[|n.name|] == ' ';
      var i := IndexOf(line, ' ');
      assert i == Some(|n.name|) by {
        assert forall k :: 0 <= k < |n.name| ==> line[k] == n.name[k];
      }
      assert line[..|n.name|] == n.name;
      assert line[|n.name| + 1..] == d;
  }

  // ---------------------------------------------------------------------------
  // `split_ascii_whitespace().next()` on a FASTQ name line

  /** Rust's `u8::is_ascii_whitespace`: space, tab, line feed, form feed and
      carriage return (vertical tab is not included). */
  predicate IsAsciiWhitespace(c: char) {
    c == ' ' || c == '\t' || c == '\n' || c == '\U{000C}' || c == '\r'
  }

  predicate NoAsciiWhitespace(s: string) {
    forall k :: 0 <= k < |s| ==> !IsAsciiWhitespace(s[k])
  }

  /** Number of ASCII whitespace characters `s` starts with. */
  function LeadingWhitespace(s: string): (w: nat)
    ensures w <= |s|
    ensures forall k :: 0 <= k < w ==> IsAsciiWhitespace(s[k])
    ensures w < |s| ==> !IsAsciiWhitespace(s[w])
  {
    if |s| == 0 || !IsAsciiWhitespace(s[0]) then 0 else 1 + LeadingWhitespace(s[1..])
  }

  /** Number of non-whitespace characters `s` starts with. */
  function TokenLength(s: string): (t: nat)
    ensures t <= |s|
    ensures NoAsciiWhitespace(s[..t])
    ensures t < |s| ==> IsAsciiWhitespace(s[t])
  {
    if |s| == 0 || IsAsciiWhitespace(s[0]) then 0 else 1 + TokenLength(s[1..])
  }

  /** The first whitespace-separated token of a name line, the key under
      which a FASTQ read is looked up; `None` when the line is blank (where
      the source's `unwrap` would panic). */
  function FirstToken(line: string): (r: Option<string>)
    ensures r.None? <==> forall k :: 0 <= k < |line| ==> IsAsciiWhitespace(line[k])
    ensures r.Some? ==> |r.value| > 0 && NoAsciiWhitespace(r.value)
    ensures r.Some? ==>
      var w := LeadingWhitespace(line);
      && w + |r.value| <= |line|
      && line[w..w + |r.value|] == r.value
      && (w + |r.value| == |line| || IsAsciiWhitespace(line[w + |r.value|]))
  {
    var w := LeadingWhitespace(line);
    var rest := line[w..];
    if |rest| == 0 then None
    else
      var t := TokenLength(rest);
      assert t > 0;
      assert rest[..t] == line[w..w + t];
      Some(rest[..t])
  }

  /** `TokenLength` is the only split point with no whitespace before it and
      whitespace (or the end) right at it. */
  lemma TokenLengthUnique(s: string, t: nat)
    requires t <= |s| && NoAsciiWhitespace(s[..t])
    requires t == |s| || IsAsciiWhitespace(s[t])
    ensures TokenLength(s) == t
  {
    var u := TokenLength(s);
    assert forall k :: 0 <= k < t ==> s[..t][k] == s[k];
    assert forall k :: 0 <= k < u ==> s[..u][k] == s[k];
  }

  /** The lookup key and the output-name prefix agree when the line does not
      start with whitespace and its only whitespace is the plain space. */
  lemma TokenAgreesWithSplit(line: string)
    requires |line| > 0 && !IsAsciiWhitespace(line[0])
    requires forall k :: 0 <= k < |line| && IsAsciiWhitespace(line[k]) ==> line[k] == ' '
    ensures FirstToken(line) == Some(SplitName(line).name)
  {
    var sp := SplitName(line);
    var n := sp.name;
    assert JoinName(sp) == line;
    assert line[..|n|] == n;
    assert |n| == |line| || line[|n|] == ' ';
    assert NoAsciiWhitespace(line[..|n|]) by {
      assert forall k :: 0 <= k < |n| ==> line[k] == n[k];
    }
    assert LeadingWhitespace(line) == 0;
    assert line[0..] == line;
    TokenLengthUnique(line, |n|);
  }

  /** A tab inside the name line makes the two splits differ: the read is
      looked up as "r1" but its sub-records are named after "r1\tx". */
  lemma TokenDiffersFromSplitOnTab()
    ensures FirstToken("r1\tx y") == Some("r1")
    ensures SplitName("r1\tx y").name == "r1\tx"
  {
    var line := "r1\tx y";
    assert LeadingWhitespace(line) == 0;
    assert line[0..] == line;
    assert line[..2] == "r1";
    TokenLengthUnique(line, 2);
    assert IndexOf(line, ' ') == Some(4) by {
      assert line[4] == ' ';
      assert forall k :: 0 <= k < 4 ==> line[k] != ' ';
    }
    assert line[..4] == "r1\tx";
  }

  // ---------------------------------------------------------------------------
  // Names of plucked sub-records

  /** `format!("{}_{}_{}", name, start, end)`: the read name, then the two
      coordinates, each after an underscore. */
  function PluckName(name: string, start: nat, end: nat): (r: string)
    ensures |name| < |r| && r[..|name|] == name && r[|name|] == '_'
    ensures ' ' !in name ==> ' ' !in r
  {
    DigitsHaveNoUnderscore(start);
    DigitsHaveNoUnderscore(end);
    var r := name + "_" + ToDecimal(start) + "_" + ToDecimal(end);
    assert r[..|name|] == name;
    r
  }

  /** Name of a plucked FASTQ sub-record: the plucked identifier followed by
      the original description, separated by one space, when there was one.
      Split at its first space, it gives back exactly those two parts. */
  function FastqPluckName(line: NameLine, start: nat, end: nat): (r: string)
    requires ' ' !in line.name
    ensures SplitName(r) == NameLine(PluckName(line.name, start, end), line.description)
  {
    var plucked := NameLine(PluckName(line.name, start, end), line.description);
    SplitJoin(plucked);
    JoinName(plucked)
  }

  /** Recovers the original name and coordinates from a plucked name, reading
      the two numbers from the right so that the original name may itself
      contain underscores. */
  function ParsePluckName(s: string): Option<(string, nat, nat)> {
    match LastIndexOf(s, '_')
    case None => None
    case Some(j) =>
      match ParseDecimal(s[j + 1..])
      case None => None
      case Some(end) =>
        match LastIndexOf(s[..j], '_')
        case None => None
        case Some(i) =>
          match ParseDecimal(s[i + 1..j])
          case None => None
          case Some(start) => Some((s[..i], start, end))
  }

  lemma DigitsHaveNoUnderscore(n: nat)
    ensures '_' !in ToDecimal(n) && ' ' !in ToDecimal(n)
  {
  }

  /** The last `c` of `a + [c] + b` is the separator itself when `b` holds none. */
  lemma LastSeparator(a: string, c: char, b: string)
    requires c !in b
    ensures LastIndexOf(a + [c] + b, c) == Some(|a|)
  {
    var s := a + [c] + b;
    assert s[|a|] == c;
    var j := LastIndexOf(s, c).value;
    assert s[j] == c;
    assert j <= |a| by {
      assert forall k :: |a| < k < |s| ==> s[k] in b;
    }
  }

  /** A plucked name decodes to the name and coordinates it was built from. */
  lemma PluckNameRoundTrip(name: string, start: nat, end: nat)
    ensures ParsePluckName(PluckName(name, start, end)) == Some((name, start, end))
  {
    var ds, de := ToDecimal(start), ToDecimal(end);
    var s := PluckName(name, start, end);
    DigitsHaveNoUnderscore(start);
    DigitsHaveNoUnderscore(end);
    var prefix := name + "_" + ds;
    assert s == prefix + ['_'] + de;
    LastSeparator(prefix, '_', de);
    var j := |prefix|;
    assert LastIndexOf(s, '_') == Some(j);
    assert s[j + 1..] == de;
    DecimalRoundTrip(end);
    assert ParseDecimal(s[j + 1..]) == Some(end);
    assert s[..j] == name + ['_'] + ds;
    LastSeparator(name, '_', ds);
    assert LastIndexOf(s[..j], '_') == Some(|name|);
    assert s[..j][..|name|] == name;
    assert s[..|name|] == name;
    assert s[|name| + 1..j] == ds;
    DecimalRoundTrip(start);
    assert ParseDecimal(s[|name| + 1..j]) == Some(start);
  }

  /** Different regions of a read, or regions of different reads, never share
      a plucked name. */
  lemma PluckNameInjective(n1: string, s1: nat, e1: nat, n2: string, s2: nat, e2: nat)
    requires PluckName(n1, s1, e1) == PluckName(n2, s2, e2)
    ensures n1 == n2 && s1 == s2 && e1 == e2
  {
    PluckNameRoundTrip(n1, s1, e1);
    PluckNameRoundTrip(n2, s2, e2);
  }
}

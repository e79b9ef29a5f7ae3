// Day 4, "Camp Cleanup": pairs of inclusive section ranges; count the pairs
// where one range contains the other, and the pairs that overlap at all.

module CampCleanup {
  import opened Text

  /** A Rust `RangeInclusive<u64>`, `start..=end`. */
  datatype Range = Range(start: nat, end: nat)

  /** One input line: the two elves' assignments. */
  datatype Pair = Pair(first: Range, second: Range)

  predicate WellFormed(r: Range)
  {
    r.start <= r.end
  }

  predicate In(x: int, r: Range)
  {
    r.start <= x <= r.end
  }

  // ---------------------------------------------------------------------------
  // Parsing

  /** `parse_range`: `a-b` with two `u64`s and `a <= b`; anything else fails. */
  function ParseRange(s: string): (r: Option<Range>)
    ensures r.Some? ==> WellFormed(r.value) && r.value.end <= U64_MAX
    ensures '-' !in s ==> r.None?
    ensures var parts := SplitOnce(s, "-");
            r.Some? <==> && parts.Some?
                         && ParseU64(parts.value.0).Some? && ParseU64(parts.value.1).Some?
                         && ParseU64(parts.value.0).value <= ParseU64(parts.value.1).value
    ensures r.Some? ==> r.value == Range(ParseU64(SplitOnce(s, "-").value.0).value, ParseU64(SplitOnce(s, "-").value.1).value)
  {
    match SplitOnce(s, "-")
    case None => None
    case Some((from, to)) =>
      match (ParseU64(from), ParseU64(to))
      case (Some(a), Some(b)) => if a <= b then Some(Range(a, b)) else None
      case _ => None
  }

  /** One line `a-b,c-d`; a line without a comma fails. */
  function ParseLine(line: string): (r: Option<Pair>)
    ensures r.Some? ==> WellFormed(r.value.first) && WellFormed(r.value.second)
    ensures ',' !in line ==> r.None?
    ensures var parts := SplitOnce(line, ",");
            r.Some? <==> parts.Some? && ParseRange(parts.value.0).Some? && ParseRange(parts.value.1).Some?
  {
    match SplitOnce(line, ",")
    case None => None
    case Some((first, second)) =>
      match (ParseRange(first), ParseRange(second))
      case (Some(a), Some(b)) => Some(Pair(a, b))
      case _ => None
  }

  /** `parse`: every line of the input must be a well-formed pair. */
  function Parse(input: string): (r: Option<seq<Pair>>)
    ensures r.Some? <==> forall k :: 0 <= k < |Lines(input)| ==> ParseLine(Lines(input)[k]).Some?
    ensures r.Some? ==> |r.value| == |Lines(input)|
    ensures r.Some? ==> forall k :: 0 <= k < |r.value| ==>
              WellFormed(r.value[k].first) && WellFormed(r.value[k].second)
  {
    AllOrNone(Lines(input), ParseLine)
  }

  function RangeText(r: Range): string
  {
    Decimal(r.start) + "-" + Decimal(r.end)
  }

  function PairText(p: Pair): string
  {
    RangeText(p.first) + "," + RangeText(p.second)
  }

  lemma DecimalHasOnlyDigits(n: nat, c: char)
    requires !IsDigit(c)
    ensures c !in Decimal(n)
  {
    var d := Decimal(n);
    assert forall k :: 0 <= k < |d| ==> d[k] != c;
  }

  /** Rendering a well-formed range as `a-b` and parsing it gives it back. */
  lemma ParseRangeText(r: Range)
    requires WellFormed(r) && r.end <= U64_MAX
    ensures ParseRange(RangeText(r)) == Some(r)
  {
    DecimalHasOnlyDigits(r.start, '-');
    SplitOnceAfterPrefix(Decimal(r.start), '-', Decimal(r.end));
    ParseDecimal(r.start);
    ParseDecimal(r.end);
  }

  /** A range written high bound first, `a-b` with `b < a`, is rejected. */
  lemma ParseRangeReversed(a: nat, b: nat)
    requires b < a <= U64_MAX
    ensures ParseRange(Decimal(a) + "-" + Decimal(b)).None?
  {
    DecimalHasOnlyDigits(a, '-');
    SplitOnceAfterPrefix(Decimal(a), '-', Decimal(b));
    ParseDecimal(a);
    ParseDecimal(b);
  }

  /** Rendering a pair as a line `a-b,c-d` and parsing it gives it back. */
  lemma ParseLineText(p: Pair)
    requires WellFormed(p.first) && p.first.end <= U64_MAX
    requires WellFormed(p.second) && p.second.end <= U64_MAX
    ensures ParseLine(PairText(p)) == Some(p)
  {
    var t := RangeText(p.first);
    DecimalHasOnlyDigits(p.first.start, ',');
    DecimalHasOnlyDigits(p.first.end, ',');
    assert ',' !in t;
    SplitOnceAfterPrefix(t, ',', RangeText(p.second));
    ParseRangeText(p.first);
    ParseRangeText(p.second);
  }

  // ---------------------------------------------------------------------------
  // The two predicates and the two answers

  /** The filter of `part1`: one range lies within the other, by endpoints. */
  predicate FullyContains(a: Range, b: Range)
  {
    (a.start >= b.start && a.end <= b.end) || (b.start >= a.start && b.end <= a.end)
  }

  /** The filter of `part2`: some endpoint of one range lies inside the other. */
  predicate Overlaps(a: Range, b: Range)
  {
    || (a.start >= b.start && a.start <= b.end)
    || (a.end <= b.end && a.end >= b.start)
    || (b.start >= a.start && b.start <= a.end)
    || (b.end <= a.end && b.end >= a.start)
  }

  ghost predicate Within(a: Range, b: Range)
  {
    forall x :: In(x, a) ==> In(x, b)
  }

  /** For well-formed ranges, the endpoint test of `part1` means that every
      section of one range is a section of the other; the test is symmetric. */
  lemma FullyContainsMeansSubset(a: Range, b: Range)
    requires WellFormed(a) && WellFormed(b)
    ensures FullyContains(a, b) <==> Within(a, b) || Within(b, a)
    ensures FullyContains(a, b) == FullyContains(b, a)
  {
    if Within(a, b) {
      assert In(a.start, a) && In(a.end, a);
    }
    if Within(b, a) {
      assert In(b.start, b) && In(b.end, b);
    }
  }

  /** For well-formed ranges, the four-way test of `part2` holds exactly when
      the ranges share a section; the test is symmetric. */
  lemma OverlapsMeansSharedSection(a: Range, b: Range)
    requires WellFormed(a) && WellFormed(b)
    ensures Overlaps(a, b) <==> exists x :: In(x, a) && In(x, b)
    ensures Overlaps(a, b) == Overlaps(b, a)
  {
    if Overlaps(a, b) {
      var x := if a.start >= b.start then a.start else b.start;
      assert In(x, a) && In(x, b);
    }
    if exists x :: In(x, a) && In(x, b) {
      var x :| In(x, a) && In(x, b);
      if a.start >= b.start {
        assert a.start <= x <= b.end;
      } else {
        assert b.start <= x <= a.end;
      }
    }
  }

  /** Containment implies overlap, for well-formed ranges. */
  lemma ContainsImpliesOverlaps(a: Range, b: Range)
    requires WellFormed(a) && WellFormed(b)
    ensures FullyContains(a, b) ==> Overlaps(a, b)
  {
    if FullyContains(a, b) {
      FullyContainsMeansSubset(a, b);
      OverlapsMeansSharedSection(a, b);
      assert In(a.start, a) && In(b.start, b);
    }
  }

  /** `part1`: the number of pairs where one range contains the other. */
  function Part1(pairs: seq<Pair>): (n: nat)
    ensures n <= |pairs|
  {
    if pairs == [] then 0
    else
      var p := pairs[|pairs| - 1];
      Part1(pairs[..|pairs| - 1]) + (if FullyContains(p.first, p.second) then 1 else 0)
  }

  /** `part2`: the number of pairs whose ranges overlap. */
  function Part2(pairs: seq<Pair>): (n: nat)
    ensures n <= |pairs|
  {
    if pairs == [] then 0
    else
      var p := pairs[|pairs| - 1];
      Part2(pairs[..|pairs| - 1]) + (if Overlaps(p.first, p.second) then 1 else 0)
  }

  /** On parsed (well-formed) input, every contained pair also overlaps. */
  lemma {:induction false} Part1AtMostPart2(pairs: seq<Pair>)
    requires forall k :: 0 <= k < |pairs| ==> WellFormed(pairs[k].first) && WellFormed(pairs[k].second)
    ensures Part1(pairs) <= Part2(pairs)
  {
    if pairs != [] {
      var p := pairs[|pairs| - 1];
      Part1AtMostPart2(pairs[..|pairs| - 1]);
      ContainsImpliesOverlaps(p.first, p.second);
    }
  }

  function Sample(): seq<Pair>
  {
    [ Pair(Range(2, 4), Range(6, 8)), Pair(Range(2, 3), Range(4, 5)),
      Pair(Range(5, 7), Range(7, 9)), Pair(Range(2, 8), Range(3, 7)),
      Pair(Range(6, 6), Range(4, 6)), Pair(Range(2, 6), Range(4, 8)) ]
  }

  /** The worked example: 2 contained pairs and 4 overlapping ones. */
  lemma SampleAnswers()
    ensures Part1(Sample()) == 2 && Part2(Sample()) == 4
  {
    var s := Sample();
    assert s[..1][..0] == s[..0] && s[..2][..1] == s[..1] && s[..3][..2] == s[..2];
    assert s[..4][..3] == s[..3] && s[..5][..4] == s[..4] && s[..6][..5] == s[..5];
    assert Part1(s[..1]) == 0 && Part2(s[..1]) == 0;
    assert Part1(s[..2]) == 0 && Part2(s[..2]) == 0;
    assert Part1(s[..3]) == 0 && Part2(s[..3]) == 1;
    assert Part1(s[..4]) == 1 && Part2(s[..4]) == 2;
    assert Part1(s[..5]) == 2 && Part2(s[..5]) == 3;
    assert s[..6] == s;
  }

  /** The first sample line parses to the first sample pair. */
  lemma SampleLine()
    ensures ParseLine("2-4,6-8") == Some(Pair(Range(2, 4), Range(6, 8)))
  {
    var p := Pair(Range(2, 4), Range(6, 8));
    ParseLineText(p);
    SamplePairText(p);
  }

  lemma SamplePairText(p: Pair)
    requires p == Pair(Range(2, 4), Range(6, 8))
    ensures PairText(p) == "2-4,6-8"
  {
    assert Decimal(2) == "2" && Decimal(4) == "4";
    assert Decimal(6) == "6" && Decimal(8) == "8";
  }

}

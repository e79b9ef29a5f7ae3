// Day 1, "Calorie Counting": blank-line separated groups of calorie counts,
// one group per elf; the largest total and the sum of the three largest.

module Calories {
  import opened Text

  /** An elf's carried items and their total. */
  datatype Elf = Elf(total: nat, items: seq<nat>)

  function Sum(xs: seq<nat>): nat
  {
    if xs == [] then 0 else Sum(xs[..|xs| - 1]) + xs[|xs| - 1]
  }

  /** A prefix never sums to more than the whole (the items are unsigned). */
  lemma {:induction false} SumPrefix(xs: seq<nat>, j: nat)
    requires j <= |xs|
    ensures Sum(xs[..j]) <= Sum(xs)
  {
    if j < |xs| {
      assert xs[..|xs| - 1][..j] == xs[..j];
      SumPrefix(xs[..|xs| - 1], j);
    } else {
      assert xs[..j] == xs;
    }
  }

  // ---------------------------------------------------------------------------
  // Parsing

  /** One line of a group: a `u64` after trimming surrounding whitespace. */
  function ParseCalories(line: string): Option<nat>
  {
    ParseU64(Trim(line))
  }

  /** One group: every line must hold a `u64` and the running total must stay
      within 64 bits (the items are unsigned, so the running total overflows
      at some line exactly when the whole sum does). */
  function ParseGroup(group: string): (r: Option<Elf>)
  {
    match AllOrNone(Lines(group), ParseCalories)
    case None => None
    case Some(items) => if Sum(items) <= U64_MAX then Some(Elf(Sum(items), items)) else None
  }

  /** The elves that carry at least one item, in order. */
  function NonEmpty(elves: seq<Elf>): (r: seq<Elf>)
    ensures |r| <= |elves|
    ensures forall k :: 0 <= k < |r| ==> r[k].items != [] && r[k] in elves
    ensures forall k :: 0 <= k < |elves| && elves[k].items != [] ==> elves[k] in r
  {
    if elves == [] then []
    else
      var init := NonEmpty(elves[..|elves| - 1]);
      var last := elves[|elves| - 1];
      if last.items == [] then init else init + [last]
  }

  /** What `parse` computes: split at every blank line, parse each group,
      drop the groups without items; any failing group fails the whole. */
  function Parsed(input: string): Option<seq<Elf>>
  {
    match AllOrNone(Split(input, "\n\n"), ParseGroup)
    case None => None
    case Some(elves) => Some(NonEmpty(elves))
  }

  /** Every parsed elf carries items, and its total is their sum within 64 bits. */
  lemma ParsedElves(input: string)
    requires Parsed(input).Some?
    ensures forall k :: 0 <= k < |Parsed(input).value| ==>
              var elf := Parsed(input).value[k];
              elf.items != [] && elf.total == Sum(elf.items) <= U64_MAX
  {
    var groups := Split(input, "\n\n");
    assert Parsed(input) == Some(NonEmpty(AllOrNone(groups, ParseGroup).value));
    KeptElves(groups);
  }

  lemma KeptElves(groups: seq<string>)
    requires AllOrNone(groups, ParseGroup).Some?
    ensures var kept := NonEmpty(AllOrNone(groups, ParseGroup).value);
            forall k :: 0 <= k < |kept| ==>
              kept[k].items != [] && kept[k].total == Sum(kept[k].items) <= U64_MAX
  {
    var all := AllOrNone(groups, ParseGroup).value;
    var kept := NonEmpty(all);
    forall k | 0 <= k < |kept| ensures kept[k].total == Sum(kept[k].items) <= U64_MAX {
      var g :| 0 <= g < |all| && all[g] == kept[k];
      assert ParseGroup(groups[g]) == Some(all[g]);
    }
  }

  lemma AllOrNonePrefix<A, B>(xs: seq<A>, f: A -> Option<B>, j: nat)
    requires j <= |xs| && AllOrNone(xs, f).Some?
    ensures AllOrNone(xs[..j], f) == Some(AllOrNone(xs, f).value[..j])
  {
    var ys := AllOrNone(xs, f).value;
    var zs := AllOrNone(xs[..j], f).value;
    assert forall k :: 0 <= k < j ==> f(xs[..j][k]) == Some(zs[k]) && f(xs[k]) == Some(ys[k]);
    assert zs == ys[..j];
  }

  /** Once the running total of a group passes 64 bits the group fails. */
  lemma GroupOverflows(group: string, j: nat, items: seq<nat>)
    requires j <= |Lines(group)|
    requires AllOrNone(Lines(group)[..j], ParseCalories) == Some(items) && Sum(items) > U64_MAX
    ensures ParseGroup(group).None?
  {
    var lines := Lines(group);
    if AllOrNone(lines, ParseCalories).Some? {
      var all := AllOrNone(lines, ParseCalories).value;
      AllOrNonePrefix(lines, ParseCalories, j);
      SumPrefix(all, j);
    }
  }

  lemma GroupStep(lines: seq<string>, j: nat, items: seq<nat>, c: nat)
    requires j < |lines| && AllOrNone(lines[..j], ParseCalories) == Some(items)
    requires ParseCalories(lines[j]) == Some(c)
    ensures AllOrNone(lines[..j + 1], ParseCalories) == Some(items + [c])
    ensures Sum(items + [c]) == Sum(items) + c
  {
    AllOrNoneStep(lines, ParseCalories, j, items, c);
    assert (items + [c])[..|items|] == items;
  }

  /** The inner loop of `parse`: push each line's item and add it to the
      total with checked addition. */
  method ParseGroupItems(group: string) returns (r: Option<Elf>)
    ensures r == ParseGroup(group)
  {
    var lines := Lines(group);
    var items: seq<nat> := [];
    var total := 0;
    var j := 0;
    while j < |lines|
      invariant 0 <= j <= |lines|
      invariant AllOrNone(lines[..j], ParseCalories) == Some(items)
      invariant total == Sum(items) <= U64_MAX
    {
      var calories := ParseCalories(lines[j]);
      if calories.None? {
        AllOrNoneFails(lines, ParseCalories, j);
        return None;
      }
      GroupStep(lines, j, items, calories.value);
      items := items + [calories.value];
      if total + calories.value > U64_MAX {
        GroupOverflows(group, j + 1, items);
        return None;
      }
      total := total + calories.value;
      j := j + 1;
    }
    assert lines[..j] == lines;
    r := Some(Elf(total, items));
  }

  lemma GroupsStep(groups: seq<string>, i: nat, elf: Elf)
    requires i < |groups| && AllOrNone(groups[..i], ParseGroup).Some?
    requires ParseGroup(groups[i]) == Some(elf)
    ensures AllOrNone(groups[..i + 1], ParseGroup).Some?
    ensures NonEmpty(AllOrNone(groups[..i + 1], ParseGroup).value)
            == NonEmpty(AllOrNone(groups[..i], ParseGroup).value) + (if elf.items != [] then [elf] else [])
  {
    var prev := AllOrNone(groups[..i], ParseGroup).value;
    AllOrNoneStep(groups, ParseGroup, i, prev, elf);
    NonEmptySnoc(prev, elf);
  }

  lemma NonEmptySnoc(elves: seq<Elf>, elf: Elf)
    ensures NonEmpty(elves + [elf]) == NonEmpty(elves) + (if elf.items != [] then [elf] else [])
  {
    assert (elves + [elf])[..|elves|] == elves;
  }

  /** `parse`: a loop over the blank-line groups that keeps each group's elf
      when it has items. */
  method Parse(input: string) returns (r: Option<seq<Elf>>)
    ensures r == Parsed(input)
  {
    var groups := Split(input, "\n\n");
    var vec: seq<Elf> := [];
    var i := 0;
    while i < |groups|
      invariant 0 <= i <= |groups|
      invariant AllOrNone(groups[..i], ParseGroup).Some?
      invariant vec == NonEmpty(AllOrNone(groups[..i], ParseGroup).value)
    {
      var elf := ParseGroupItems(groups[i]);
      if elf.None? {
        AllOrNoneFails(groups, ParseGroup, i);
        return None;
      }
      GroupsStep(groups, i, elf.value);
      if elf.value.items != [] {
        vec := vec + [elf.value];
      }
      i := i + 1;
    }
    assert groups[..i] == groups;
    r := Some(vec);
  }

  // ---------------------------------------------------------------------------
  // Rendering, for the round trip

  function Decimals(items: seq<nat>): (ds: seq<string>)
    ensures |ds| == |items|
  {
    seq(|items|, k requires 0 <= k < |items| => Decimal(items[k]))
  }

  /** An elf's group: one decimal number per line. */
  function GroupText(items: seq<nat>): string
  {
    Join(Decimals(items), "\n")
  }

  /** The puzzle input for a list of elves: their groups separated by blank lines. */
  function ElvesText(elves: seq<Elf>): string
  {
    Join(GroupTexts(elves), "\n\n")
  }

  function GroupTexts(elves: seq<Elf>): (gs: seq<string>)
    ensures |gs| == |elves|
  {
    seq(|elves|, k requires 0 <= k < |elves| => GroupText(elves[k].items))
  }

  lemma GroupTextHasNoBlankLine(items: seq<nat>)
    requires |items| >= 1
    ensures NoSepInside(GroupText(items), "\n\n")
  {
    var ds := Decimals(items);
    forall k | 0 <= k < |ds| ensures |ds[k]| >= 1 && '\n' !in ds[k] {
      forall j | 0 <= j < |ds[k]| ensures ds[k][j] != '\n' {
        assert IsDigit(ds[k][j]);
      }
    }
    NoBlankLineInJoin(ds);
  }

  lemma TrimDecimal(n: nat)
    ensures Trim(Decimal(n)) == Decimal(n)
  {
    TrimDigits(Decimal(n));
  }

  lemma DecimalsAreLines(items: seq<nat>)
    requires |items| >= 1
    ensures Lines(GroupText(items)) == Decimals(items)
  {
    var ds := Decimals(items);
    forall k | 0 <= k < |ds| ensures '\n' !in ds[k] && StripCR(ds[k]) == ds[k] {
      var d := ds[k];
      assert AllDigits(d);
      assert d[|d| - 1] != '\r';
    }
    LinesOfJoin(ds);
  }

  lemma ParseCaloriesDecimal(n: nat)
    requires n <= U64_MAX
    ensures ParseCalories(Decimal(n)) == Some(n)
  {
    TrimDecimal(n);
    ParseDecimal(n);
  }

  lemma ParseDecimals(items: seq<nat>)
    requires forall k :: 0 <= k < |items| ==> items[k] <= U64_MAX
    ensures AllOrNone(Decimals(items), ParseCalories) == Some(items)
  {
    var ds := Decimals(items);
    forall k | 0 <= k < |ds| ensures ParseCalories(ds[k]) == Some(items[k]) {
      ParseCaloriesDecimal(items[k]);
    }
    AllOrNoneEach(ds, ParseCalories, items);
  }

  lemma ParseGroupText(items: seq<nat>)
    requires |items| >= 1 && Sum(items) <= U64_MAX
    requires forall k :: 0 <= k < |items| ==> items[k] <= U64_MAX
    ensures ParseGroup(GroupText(items)) == Some(Elf(Sum(items), items))
  {
    DecimalsAreLines(items);
    ParseDecimals(items);
  }

  /** Elves whose totals are the 64-bit sums of their items. */
  predicate WellFormed(elves: seq<Elf>)
  {
    forall k :: 0 <= k < |elves| ==>
      && elves[k].items != [] && elves[k].total == Sum(elves[k].items) <= U64_MAX
      && forall m :: 0 <= m < |elves[k].items| ==> elves[k].items[m] <= U64_MAX
  }

  lemma ParseGroupTexts(elves: seq<Elf>)
    requires WellFormed(elves)
    ensures AllOrNone(GroupTexts(elves), ParseGroup) == Some(elves)
  {
    var gs := GroupTexts(elves);
    forall k | 0 <= k < |gs| ensures ParseGroup(gs[k]) == Some(elves[k]) {
      ParseGroupText(elves[k].items);
    }
    AllOrNoneEach(gs, ParseGroup, elves);
  }

  /** Writing elves as the puzzle's text and parsing it gives the elves back,
      when every elf has items whose total is their sum within 64 bits. */
  lemma ParseElvesText(elves: seq<Elf>)
    requires |elves| >= 1 && WellFormed(elves)
    ensures Parsed(ElvesText(elves)) == Some(elves)
  {
    var gs := GroupTexts(elves);
    forall k | 0 <= k < |gs| ensures NoSepInside(gs[k], "\n\n") {
      GroupTextHasNoBlankLine(elves[k].items);
    }
    JoinSplitSep(gs, "\n\n");
    ParseGroupTexts(elves);
    AllKept(elves);
  }

  lemma {:induction false} AllKept(elves: seq<Elf>)
    requires forall k :: 0 <= k < |elves| ==> elves[k].items != []
    ensures NonEmpty(elves) == elves
  {
    if elves != [] {
      AllKept(elves[..|elves| - 1]);
      FrontLast(elves);
    }
  }

  // ---------------------------------------------------------------------------
  // Part 1: the largest total

  /** `part1`: the largest total; no elves is an error. */
  function Part1(elves: seq<Elf>): (r: Option<nat>)
    ensures r.None? <==> elves == []
    ensures r.Some? ==> exists k :: 0 <= k < |elves| && elves[k].total == r.value
    ensures r.Some? ==> forall k :: 0 <= k < |elves| ==> elves[k].total <= r.value
  {
    if elves == [] then None
    else
      var last := elves[|elves| - 1];
      match Part1(elves[..|elves| - 1])
      case None => Some(last.total)
      case Some(m) =>
        var r := if last.total >= m then last.total else m;
        assert forall k :: 0 <= k < |elves| - 1 ==> elves[k] == elves[..|elves| - 1][k];
        Some(r)
  }

  // ---------------------------------------------------------------------------
  // Part 2: the three largest totals

  function Totals(elves: seq<Elf>): (ts: seq<nat>)
    ensures |ts| == |elves|
  {
    seq(|elves|, k requires 0 <= k < |elves| => elves[k].total)
  }

  predicate Ascending(s: seq<nat>)
  {
    forall i, j :: 0 <= i < j < |s| ==> s[i] <= s[j]
  }

  /** Insert into an ascending sequence before the first larger element. */
  function Insert(x: nat, s: seq<nat>): (r: seq<nat>)
    ensures |r| == |s| + 1
  {
    if s == [] || x <= s[0] then [x] + s else [s[0]] + Insert(x, s[1..])
  }

  lemma {:induction false} InsertPermutes(x: nat, s: seq<nat>)
    ensures multiset(Insert(x, s)) == multiset(s) + multiset{x}
  {
    if s != [] && x > s[0] {
      InsertPermutes(x, s[1..]);
      assert s == [s[0]] + s[1..];
    }
  }

  lemma {:induction false} InsertAscending(x: nat, s: seq<nat>)
    requires Ascending(s)
    ensures Ascending(Insert(x, s))
  {
    if s != [] && x > s[0] {
      var t := Insert(x, s[1..]);
      InsertAscending(x, s[1..]);
      InsertPermutes(x, s[1..]);
      forall k | 0 <= k < |t| ensures s[0] <= t[k] {
        assert t[k] in multiset(s[1..]) + multiset{x};
        if t[k] != x {
          assert t[k] in s[1..];
        }
      }
    }
  }

  /** The totals in ascending order, with the same elements (the effect of
      `sort_by` on the copy). */
  function Sort(s: seq<nat>): (r: seq<nat>)
    ensures |r| == |s|
  {
    if s == [] then [] else Insert(s[|s| - 1], Sort(s[..|s| - 1]))
  }

  /** Sorting orders the totals and keeps each of them as often as it occurs. */
  lemma {:induction false} SortSorts(s: seq<nat>)
    ensures Ascending(Sort(s)) && multiset(Sort(s)) == multiset(s)
  {
    if s != [] {
      var t := Sort(s[..|s| - 1]);
      SortSorts(s[..|s| - 1]);
      InsertAscending(s[|s| - 1], t);
      InsertPermutes(s[|s| - 1], t);
      FrontLast(s);
    }
  }

  /** The three totals `part2` pops, largest first, for three or more elves. */
  function TopThree(elves: seq<Elf>): (t: (nat, nat, nat))
    requires |elves| >= 3
  {
    var s := Sort(Totals(elves));
    (s[|s| - 1], s[|s| - 2], s[|s| - 3])
  }

  /** The popped totals belong to three different elves, come in descending
      order, and every other elf's total is at most the smallest of them. */
  lemma TopThreeAreLargest(elves: seq<Elf>)
    requires |elves| >= 3
    ensures var (a, b, c) := TopThree(elves);
            && a >= b >= c
            && multiset{a, b, c} <= multiset(Totals(elves))
            && forall x :: x in multiset(Totals(elves)) - multiset{a, b, c} ==> x <= c
  {
    var ts := Totals(elves);
    var s := Sort(ts);
    SortSorts(ts);
    assert TopThree(elves) == (s[|s| - 1], s[|s| - 2], s[|s| - 3]);
    LastThreeAreLargest(s, ts, s[|s| - 1], s[|s| - 2], s[|s| - 3]);
  }

  lemma LastThreeAreLargest(s: seq<nat>, t: seq<nat>, a: nat, b: nat, c: nat)
    requires |s| >= 3 && Ascending(s) && multiset(s) == multiset(t)
    requires a == s[|s| - 1] && b == s[|s| - 2] && c == s[|s| - 3]
    ensures a >= b >= c
    ensures multiset{a, b, c} <= multiset(t)
    ensures forall x :: x in multiset(t) - multiset{a, b, c} ==> x <= c
  {
    var n := |s|;
    var rest := s[..n - 3];
    assert s == rest + [c, b, a];
    assert multiset(s) == multiset(rest) + multiset{a, b, c};
    forall x | x in multiset(rest) ensures x <= c {
      assert x in rest;
    }
  }

  /** The last element of the sorted totals is one of them and no smaller than any. */
  lemma LastSortedIsMax(t: seq<nat>)
    requires |t| > 0
    ensures Sort(t)[|t| - 1] in t
    ensures forall x :: x in t ==> x <= Sort(t)[|t| - 1]
  {
    var s := Sort(t);
    SortSorts(t);
    assert s[|s| - 1] in multiset(s);
    forall x | x in t ensures x <= s[|s| - 1] {
      assert x in multiset(t);
      assert x in multiset(s);
    }
  }

  /** The largest popped total is the `part1` answer. */
  lemma TopIsPart1(elves: seq<Elf>)
    requires |elves| >= 3
    ensures TopThree(elves).0 == Part1(elves).value
  {
    var ts := Totals(elves);
    LastSortedIsMax(ts);
    var top := TopThree(elves).0;
    var m := Part1(elves).value;
    var k :| 0 <= k < |elves| && elves[k].total == m;
    assert ts[k] == m;
    assert m in ts;
    assert m <= top;
    var j :| 0 <= j < |ts| && ts[j] == top;
    assert elves[j].total == top;
    assert top <= m;
  }

  /** What `part2` answers: the sum of the three popped totals, failing with
      fewer than three elves or when a checked addition overflows. */
  function Part2Of(elves: seq<Elf>): Option<nat>
  {
    if |elves| < 3 then None
    else
      var (a, b, c) := TopThree(elves);
      if a + b + c <= U64_MAX then Some(a + b + c) else None
  }

  /** `part2`: sort a copy by total, then pop three totals and add them with
      checked additions. The caller's elves are a value and stay unchanged. */
  method Part2(elves: seq<Elf>) returns (r: Option<nat>)
    ensures r == Part2Of(elves)
  {
    var copy := Sort(Totals(elves));
    if |copy| == 0 {
      return None;
    }
    var a := copy[|copy| - 1];
    copy := copy[..|copy| - 1];
    if |copy| == 0 {
      return None;
    }
    var b := copy[|copy| - 1];
    copy := copy[..|copy| - 1];
    if a + b > U64_MAX {
      return None;
    }
    if |copy| == 0 {
      return None;
    }
    var c := copy[|copy| - 1];
    if a + b + c > U64_MAX {
      return None;
    }
    r := Some(a + b + c);
  }

  // ---------------------------------------------------------------------------
  // The worked examples

  function Elf1(items: seq<nat>): Elf
  {
    Elf(Sum(items), items)
  }

  function SampleElves(): seq<Elf>
  {
    [Elf1([1000, 2000, 3000]), Elf1([4000]), Elf1([5000, 6000]), Elf1([7000, 8000, 9000]), Elf1([10000])]
  }

  lemma SumOfFew(a: nat, b: nat, c: nat)
    ensures Sum([a]) == a && Sum([a, b]) == a + b && Sum([a, b, c]) == a + b + c
  {
    assert [a, b][..1] == [a] && [a][..0] == [];
    assert [a, b, c][..2] == [a, b];
  }

  lemma SampleTotals()
    ensures Totals(SampleElves()) == [6000, 4000, 11000, 24000, 10000]
  {
    SumOfFew(1000, 2000, 3000);
    SumOfFew(4000, 0, 0);
    SumOfFew(5000, 6000, 0);
    SumOfFew(7000, 8000, 9000);
    SumOfFew(10000, 0, 0);
  }

  /** The largest sample total is 24000. */
  lemma SamplePart1()
    ensures Part1(SampleElves()) == Some(24000)
  {
    SampleTotals();
    var e := SampleElves();
    assert Totals(e)[3] == e[3].total == 24000;
    assert forall k :: 0 <= k < |e| ==> e[k].total == Totals(e)[k] <= 24000;
  }

  /** The three largest sample totals add up to 45000. */
  lemma SamplePart2()
    ensures Part2Of(SampleElves()) == Some(45000)
  {
    SampleTotals();
    SampleSorted();
  }

  lemma SortSnoc(s: seq<nat>, x: nat)
    ensures Sort(s + [x]) == Insert(x, Sort(s))
  {
    assert (s + [x])[..|s|] == s;
  }

  lemma SampleSorted2()
    ensures Sort([6000, 4000]) == [4000, 6000]
  {
    SortSnoc([], 6000);
    assert [] + [6000] == [6000];
    SortSnoc([6000], 4000);
    assert [6000] + [4000] == [6000, 4000];
  }

  lemma SampleSorted3()
    ensures Sort([6000, 4000, 11000]) == [4000, 6000, 11000]
  {
    SampleSorted2();
    SortSnoc([6000, 4000], 11000);
    assert [6000, 4000] + [11000] == [6000, 4000, 11000];
    assert Insert(11000, []) == [11000];
    assert Insert(11000, [6000]) == [6000, 11000];
  }

  lemma SampleSorted4()
    ensures Sort([6000, 4000, 11000, 24000]) == [4000, 6000, 11000, 24000]
  {
    SampleSorted3();
    SortSnoc([6000, 4000, 11000], 24000);
    assert [6000, 4000, 11000] + [24000] == [6000, 4000, 11000, 24000];
    InsertLargest();
  }

  lemma InsertLargest()
    ensures Insert(24000, [4000, 6000, 11000]) == [4000, 6000, 11000, 24000]
  {
    assert Insert(24000, []) == [24000];
    assert Insert(24000, [11000]) == [11000, 24000];
    assert Insert(24000, [6000, 11000]) == [6000, 11000, 24000];
  }

  lemma InsertLast()
    ensures Insert(10000, [4000, 6000, 11000, 24000]) == [4000, 6000, 10000, 11000, 24000]
  {
    var s: seq<nat> := [4000, 6000, 11000, 24000];
    assert s[1..] == [6000, 11000, 24000] && s[1..][1..] == [11000, 24000];
    assert Insert(10000, [11000, 24000]) == [10000, 11000, 24000];
    assert Insert(10000, [6000, 11000, 24000]) == [6000, 10000, 11000, 24000];
  }

  lemma SampleSorted()
    ensures Sort([6000, 4000, 11000, 24000, 10000]) == [4000, 6000, 10000, 11000, 24000]
  {
    SampleSorted4();
    SortSnoc([6000, 4000, 11000, 24000], 10000);
    assert [6000, 4000, 11000, 24000] + [10000] == [6000, 4000, 11000, 24000, 10000];
    InsertLast();
  }

  /** The parse test: three groups give three elves. */
  function ParseSample(): seq<Elf>
  {
    [Elf(5, [1, 1, 3]), Elf(3, [3]), Elf(4, [4])]
  }

  lemma ParseSampleWellFormed()
    ensures WellFormed(ParseSample())
  {
    SumOfFew(1, 1, 3);
    SumOfFew(3, 0, 0);
    SumOfFew(4, 0, 0);
  }

  lemma ParseSampleText()
    ensures ElvesText(ParseSample()) == "1\n1\n3\n\n3\n\n4"
  {
    assert Decimal(1) == "1" && Decimal(3) == "3" && Decimal(4) == "4";
    assert Decimals([1, 1, 3]) == ["1", "1", "3"];
    assert Join(["1", "1", "3"], "\n") == "1\n1\n3";
    assert Decimals([3]) == ["3"] && Decimals([4]) == ["4"];
    assert GroupTexts(ParseSample()) == ["1\n1\n3", "3", "4"];
    assert Join(["1\n1\n3", "3", "4"], "\n\n") == "1\n1\n3\n\n3\n\n4";
  }

  /** The parse test: three groups give three elves with totals 5, 3 and 4. */
  lemma SampleParse()
    ensures Parsed("1\n1\n3\n\n3\n\n4") == Some(ParseSample())
  {
    ParseSampleWellFormed();
    ParseElvesText(ParseSample());
    ParseSampleText();
  }
}

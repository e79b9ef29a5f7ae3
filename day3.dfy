// Day 3, "Rucksack Reorganization": find the one item type shared by the
// two compartments of a rucksack, or by three rucksacks of a group, and sum
// the priorities.

module Rucksack {
  import opened Text

  predicate IsLower(c: char)
  {
    'a' <= c <= 'z'
  }

  predicate IsUpper(c: char)
  {
    'A' <= c <= 'Z'
  }

  /** `prio`: lower-case items count from 1, everything else from 'A' = 27. */
  function Prio(c: char): int
  {
    if IsLower(c) then c as int - 'a' as int + 1 else c as int - 'A' as int + 27
  }

  /** The item a priority in 1..52 stands for (the inverse of `Prio`). */
  function ItemOf(p: int): (c: char)
    requires 1 <= p <= 52
    ensures IsLower(c) || IsUpper(c)
  {
    if p <= 26 then ('a' as int + p - 1) as char else ('A' as int + p - 27) as char
  }

  /** Letters get priorities 1..26 (lower) and 27..52 (upper), and the
      priority determines the letter. */
  lemma PrioIsBijection(c: char)
    requires IsLower(c) || IsUpper(c)
    ensures IsLower(c) ==> 1 <= Prio(c) <= 26
    ensures IsUpper(c) ==> 27 <= Prio(c) <= 52
    ensures ItemOf(Prio(c)) == c
  {
  }

  lemma ItemOfPrio(p: int)
    requires 1 <= p <= 52
    ensures Prio(ItemOf(p)) == p
  {
  }

  // ---------------------------------------------------------------------------
  // Shared items

  /** The items of `a` that also occur in `b`, in order (`filter(|c| b.contains(c))`). */
  function Filter(a: string, b: string): string
  {
    if a == [] then []
    else
      var rest := Filter(a[..|a| - 1], b);
      if a[|a| - 1] in b then rest + [a[|a| - 1]] else rest
  }

  /** An item survives the filter exactly when both strings hold it. */
  lemma {:induction false} FilterSpec(a: string, b: string)
    ensures forall x :: x in Filter(a, b) <==> x in a && x in b
  {
    if a != [] {
      FilterSpec(a[..|a| - 1], b);
      assert forall x :: x in a <==> x in a[..|a| - 1] || x == a[|a| - 1];
    }
  }

  /** `unique().collect_tuple::<(char,)>()`: the one distinct item of `s`,
      or nothing when `s` is empty or holds two different items. */
  function SoleItem(s: string): Option<char>
  {
    var d := Dedup(s);
    if |d| == 1 then Some(d[0]) else None
  }

  /** `SoleItem` succeeds exactly when `s` is one item repeated. */
  lemma SoleItemSpec(s: string)
    ensures SoleItem(s).Some? <==> |s| > 0 && forall k :: 0 <= k < |s| ==> s[k] == s[0]
    ensures SoleItem(s).Some? ==> SoleItem(s).value == s[0]
  {
    var d := Dedup(s);
    if |d| == 1 {
      assert forall k :: 0 <= k < |s| ==> s[k] == d[0];
    }
    if |s| > 0 && forall k :: 0 <= k < |s| ==> s[k] == s[0] {
      DedupOfRepeat(s, s[0]);
    }
  }

  /** One item repeated deduplicates to that item alone. */
  lemma {:induction false} DedupOfRepeat(s: string, c: char)
    requires |s| > 0 && forall k :: 0 <= k < |s| ==> s[k] == c
    ensures Dedup(s) == [c]
  {
    if |s| > 1 {
      DedupOfRepeat(s[..|s| - 1], c);
    }
  }

  /** There is exactly one item type that both `a` and `b` hold. */
  ghost predicate UniqueShared(x: char, a: string, b: string)
  {
    x in a && x in b && forall y :: y in a && y in b ==> y == x
  }

  /** The item the two strings share (`filter`, then `unique`), when there
      is exactly one. */
  function Shared(a: string, b: string): Option<char>
  {
    SoleItem(Filter(a, b))
  }

  /** `Shared` finds the item exactly when it is the only one both hold. */
  lemma SharedSpec(a: string, b: string)
    ensures Shared(a, b).Some? ==> UniqueShared(Shared(a, b).value, a, b)
    ensures Shared(a, b).None? ==> forall x :: !UniqueShared(x, a, b)
  {
    var f := Filter(a, b);
    var r := SoleItem(f);
    FilterSpec(a, b);
    SoleItemSpec(f);
    if r.Some? {
      forall y | y in a && y in b ensures y == r.value {
        assert y in f;
      }
    }
    forall x | UniqueShared(x, a, b) ensures r.Some? {
      assert x in f;
      assert forall k :: 0 <= k < |f| ==> f[k] == x;
    }
  }

  /** There is exactly one item type that all three strings hold. */
  ghost predicate UniqueShared3(x: char, a: string, b: string, c: string)
  {
    x in a && x in b && x in c && forall y :: y in a && y in b && y in c ==> y == x
  }

  /** The item the three strings share, when there is exactly one. */
  function Shared3(a: string, b: string, c: string): Option<char>
  {
    SoleItem(Filter(Filter(a, b), c))
  }

  /** `Shared3` finds the item exactly when it is the only one all three hold. */
  lemma Shared3Spec(a: string, b: string, c: string)
    ensures Shared3(a, b, c).Some? ==> UniqueShared3(Shared3(a, b, c).value, a, b, c)
    ensures Shared3(a, b, c).None? ==> forall x :: !UniqueShared3(x, a, b, c)
  {
    var f := Filter(Filter(a, b), c);
    var r := SoleItem(f);
    FilterSpec(a, b);
    FilterSpec(Filter(a, b), c);
    SoleItemSpec(f);
    if r.Some? {
      forall y | y in a && y in b && y in c ensures y == r.value {
        assert y in f;
      }
    }
    forall x | UniqueShared3(x, a, b, c) ensures r.Some? {
      assert x in f;
      assert forall k :: 0 <= k < |f| ==> f[k] == x;
    }
  }

  // ---------------------------------------------------------------------------
  // The two answers

  function FirstHalf(s: string): string
  {
    s[..|s| / 2]
  }

  function SecondHalf(s: string): string
  {
    s[|s| / 2..]
  }

  /** The two halves of a rucksack share exactly one item type. */
  ghost predicate HalvesShareOne(s: string)
  {
    exists x :: UniqueShared(x, FirstHalf(s), SecondHalf(s))
  }

  ghost predicate ThreeShareOne(a: string, b: string, c: string)
  {
    exists x :: UniqueShared3(x, a, b, c)
  }

  /** The group starting at rucksack `j` shares exactly one item type. */
  ghost predicate GroupSharesOne(rucksacks: seq<string>, j: nat)
    requires j + 2 < |rucksacks|
  {
    ThreeShareOne(rucksacks[j], rucksacks[j + 1], rucksacks[j + 2])
  }

  /** From rucksack `i` on, the rucksacks form whole groups of three, each
      sharing exactly one item type. */
  ghost predicate AllGroupsShareOne(rucksacks: seq<string>, i: nat)
    requires i <= |rucksacks|
  {
    && (|rucksacks| - i) % 3 == 0
    && forall j: nat :: i <= j && j + 2 < |rucksacks| && (j - i) % 3 == 0 ==> GroupSharesOne(rucksacks, j)
  }

  /** `part1`: the sum of the priorities of the item each rucksack's two
      halves share; it fails as soon as one rucksack's halves do not share
      exactly one item type. */
  function Part1(rucksacks: seq<string>): (r: Option<int>)
    ensures r.Some? <==> forall k :: 0 <= k < |rucksacks| ==> HalvesShareOne(rucksacks[k])
  {
    if rucksacks == [] then Some(0)
    else
      var last := rucksacks[|rucksacks| - 1];
      var init := rucksacks[..|rucksacks| - 1];
      var rest := Part1(init);
      var item := Shared(FirstHalf(last), SecondHalf(last));
      SharedSpec(FirstHalf(last), SecondHalf(last));
      assert forall k :: 0 <= k < |init| ==> init[k] == rucksacks[k];
      if rest.Some? && item.Some? then Some(rest.value + Prio(item.value)) else None
  }

  /** `part2`: groups of three consecutive rucksacks, each sharing exactly
      one item type; a short last group fails, as does a group without a
      single shared item. */
  function Part2(rucksacks: seq<string>): (r: Option<int>)
    ensures r.Some? <==> AllGroupsShareOne(rucksacks, 0)
  {
    Part2FromSucceeds(rucksacks, 0);
    Part2From(rucksacks, 0)
  }

  /** `part2` over the groups from rucksack `i` on. */
  function Part2From(rucksacks: seq<string>, i: nat): Option<int>
    requires i <= |rucksacks|
    decreases |rucksacks| - i
  {
    if i == |rucksacks| then Some(0)
    else if |rucksacks| - i < 3 then None
    else
      var badge := Shared3(rucksacks[i], rucksacks[i + 1], rucksacks[i + 2]);
      var rest := Part2From(rucksacks, i + 3);
      if badge.Some? && rest.Some? then Some(Prio(badge.value) + rest.value) else None
  }

  /** One step of `part2`: the group at `i`, then the groups after it. */
  lemma Part2Step(rucksacks: seq<string>, i: nat)
    requires i + 3 <= |rucksacks|
    ensures var badge := Shared3(rucksacks[i], rucksacks[i + 1], rucksacks[i + 2]);
            var rest := Part2From(rucksacks, i + 3);
            Part2From(rucksacks, i) == if badge.Some? && rest.Some? then Some(Prio(badge.value) + rest.value) else None
  {
  }

  lemma {:induction false} Part2FromSucceeds(rucksacks: seq<string>, i: nat)
    requires i <= |rucksacks|
    ensures Part2From(rucksacks, i).Some? <==> AllGroupsShareOne(rucksacks, i)
    decreases |rucksacks| - i
  {
    if |rucksacks| - i >= 3 {
      Part2FromSucceeds(rucksacks, i + 3);
      Part2Step(rucksacks, i);
      Shared3Spec(rucksacks[i], rucksacks[i + 1], rucksacks[i + 2]);
      AllGroupsSplit(rucksacks, i);
    }
  }

  /** Whole groups from `i` on are the group at `i` followed by whole groups from `i + 3` on. */
  lemma AllGroupsSplit(rucksacks: seq<string>, i: nat)
    requires i + 3 <= |rucksacks|
    ensures AllGroupsShareOne(rucksacks, i)
        <==> GroupSharesOne(rucksacks, i) && AllGroupsShareOne(rucksacks, i + 3)
  {
    if AllGroupsShareOne(rucksacks, i) {
      assert GroupSharesOne(rucksacks, i);
      forall j: nat | i + 3 <= j && j + 2 < |rucksacks| && (j - i - 3) % 3 == 0
        ensures GroupSharesOne(rucksacks, j)
      {
        assert (j - i) % 3 == 0;
      }
    }
    if GroupSharesOne(rucksacks, i) && AllGroupsShareOne(rucksacks, i + 3) {
      forall j: nat | i <= j && j + 2 < |rucksacks| && (j - i) % 3 == 0
        ensures GroupSharesOne(rucksacks, j)
      {
        if j != i {
          assert (j - i - 3) % 3 == 0;
        }
      }
    }
  }

  /** `parse`: the input's lines, unchanged, provided every one has even length. */
  function Parse(input: string): (r: Option<seq<string>>)
    ensures r.Some? <==> forall k :: 0 <= k < |Lines(input)| ==> |Lines(input)[k]| % 2 == 0
    ensures r.Some? ==> r.value == Lines(input)
  {
    var lines := Lines(input);
    if forall k :: 0 <= k < |lines| ==> |lines[k]| % 2 == 0 then Some(lines) else None
  }

  /** Round trip: rucksack lines joined by newlines parse back to themselves
      exactly when every one of them has even length. */
  lemma ParseJoin(ls: seq<string>)
    requires |ls| >= 1 && ls[|ls| - 1] != ""
    requires forall k :: 0 <= k < |ls| ==> '\n' !in ls[k] && StripCR(ls[k]) == ls[k]
    ensures Parse(Join(ls, "\n")).Some? <==> forall k :: 0 <= k < |ls| ==> |ls[k]| % 2 == 0
    ensures Parse(Join(ls, "\n")).Some? ==> Parse(Join(ls, "\n")) == Some(ls)
  {
    LinesOfJoin(ls);
  }

  // ---------------------------------------------------------------------------
  // Sums, and the worked example

  /** The sum of the priorities of `items`. */
  function PrioSum(items: string): int
  {
    if items == [] then 0 else PrioSum(items[..|items| - 1]) + Prio(items[|items| - 1])
  }

  lemma {:induction false} PrioSumCons(x: char, items: string)
    ensures PrioSum([x] + items) == Prio(x) + PrioSum(items)
  {
    if items != [] {
      assert ([x] + items)[..|items|] == [x] + items[..|items| - 1];
      PrioSumCons(x, items[..|items| - 1]);
    }
  }

  /** `part1` adds up the priorities of the items the rucksacks' halves share. */
  lemma {:induction false} Part1Sum(rucksacks: seq<string>, items: string)
    requires |items| == |rucksacks|
    requires forall k :: 0 <= k < |rucksacks| ==>
               Shared(FirstHalf(rucksacks[k]), SecondHalf(rucksacks[k])) == Some(items[k])
    ensures Part1(rucksacks) == Some(PrioSum(items))
  {
    if rucksacks != [] {
      var n := |rucksacks| - 1;
      assert forall k :: 0 <= k < n ==> rucksacks[..n][k] == rucksacks[k];
      Part1Sum(rucksacks[..n], items[..n]);
    }
  }

  /** `part2` adds up the priorities of the badges the groups share. */
  lemma {:induction false} Part2Sum(rucksacks: seq<string>, i: nat, badges: string)
    requires i <= |rucksacks| && |rucksacks| - i == 3 * |badges|
    requires forall g :: 0 <= g < |badges| ==>
               Shared3(rucksacks[i + 3 * g], rucksacks[i + 3 * g + 1], rucksacks[i + 3 * g + 2]) == Some(badges[g])
    ensures Part2From(rucksacks, i) == Some(PrioSum(badges))
    decreases |badges|
  {
    if badges != [] {
      BadgesShift(rucksacks, i, badges);
      Part2Sum(rucksacks, i + 3, badges[1..]);
      assert Shared3(rucksacks[i + 3 * 0], rucksacks[i + 3 * 0 + 1], rucksacks[i + 3 * 0 + 2]) == Some(badges[0]);
      Part2SumStep(rucksacks, i, badges);
    }
  }

  /** The groups after the first one share the remaining badges. */
  lemma BadgesShift(rucksacks: seq<string>, i: nat, badges: string)
    requires i <= |rucksacks| && |rucksacks| - i == 3 * |badges| && badges != []
    requires forall g :: 0 <= g < |badges| ==>
               Shared3(rucksacks[i + 3 * g], rucksacks[i + 3 * g + 1], rucksacks[i + 3 * g + 2]) == Some(badges[g])
    ensures forall g :: 0 <= g < |badges| - 1 ==>
              Shared3(rucksacks[i + 3 + 3 * g], rucksacks[i + 3 + 3 * g + 1], rucksacks[i + 3 + 3 * g + 2]) == Some(badges[1..][g])
  {
    forall g | 0 <= g < |badges| - 1
      ensures Shared3(rucksacks[i + 3 + 3 * g], rucksacks[i + 3 + 3 * g + 1], rucksacks[i + 3 + 3 * g + 2]) == Some(badges[1..][g])
    {
      var h := g + 1;
      assert i + 3 * h == i + 3 + 3 * g;
      assert Shared3(rucksacks[i + 3 * h], rucksacks[i + 3 * h + 1], rucksacks[i + 3 * h + 2]) == Some(badges[h]);
    }
  }

  lemma Part2SumStep(rucksacks: seq<string>, i: nat, badges: string)
    requires i + 3 <= |rucksacks| && badges != []
    requires Shared3(rucksacks[i], rucksacks[i + 1], rucksacks[i + 2]) == Some(badges[0])
    requires Part2From(rucksacks, i + 3) == Some(PrioSum(badges[1..]))
    ensures Part2From(rucksacks, i) == Some(PrioSum(badges))
  {
    Part2Step(rucksacks, i);
    PrioSumCons(badges[0], badges[1..]);
    assert [badges[0]] + badges[1..] == badges;
  }

  /** `x` is the only item of `a` that `b` also holds. */
  lemma SharedIs(a: string, b: string, x: char)
    requires x in a && x in b
    requires forall k :: 0 <= k < |a| ==> a[k] == x || a[k] !in b
    ensures Shared(a, b) == Some(x)
  {
    SharedSpec(a, b);
    assert UniqueShared(x, a, b);
  }

  /** A rucksack made of two equal halves `a` and `b` that share only `x`. */
  lemma HalvesShare(line: string, a: string, b: string, x: char)
    requires line == a + b && |a| == |b|
    requires x in a && x in b
    requires forall k :: 0 <= k < |a| ==> a[k] == x || a[k] !in b
    ensures Shared(FirstHalf(line), SecondHalf(line)) == Some(x)
  {
    assert FirstHalf(line) == a && SecondHalf(line) == b;
    SharedIs(a, b, x);
  }

  /** `x` is the only item of `c` that `a` and `b` also hold. */
  lemma Shared3Is(a: string, b: string, c: string, x: char)
    requires x in a && x in b && x in c
    requires forall k :: 0 <= k < |c| ==> c[k] == x || c[k] !in a || c[k] !in b
    ensures Shared3(a, b, c) == Some(x)
  {
    Shared3Spec(a, b, c);
    assert UniqueShared3(x, a, b, c);
  }

  function Sample(): seq<string>
  {
    [ "vJrwpWtwJgWrhcsFMMfFFhFp", "jqHRNqRjqzjGDLGLrsFMfFZSrLrFZsSL", "PmmdzqPrVvPwwTWBwg",
      "wMqvLMZHhHMvwLHjbvcjnnSBnvTQFn", "ttgJtRGJQctTZtZT", "CrZsJsPPZsGzwwsLwLmpwMDw" ]
  }

  lemma SampleRucksack0()
    ensures Shared(FirstHalf(Sample()[0]), SecondHalf(Sample()[0])) == Some('p')
  {
    HalvesShare(Sample()[0], "vJrwpWtwJgWr", "hcsFMMfFFhFp", 'p');
  }

  lemma SampleRucksack1()
    ensures Shared(FirstHalf(Sample()[1]), SecondHalf(Sample()[1])) == Some('L')
  {
    HalvesShare(Sample()[1], "jqHRNqRjqzjGDLGL", "rsFMfFZSrLrFZsSL", 'L');
  }

  lemma SampleRucksack2()
    ensures Shared(FirstHalf(Sample()[2]), SecondHalf(Sample()[2])) == Some('P')
  {
    HalvesShare(Sample()[2], "PmmdzqPrV", "vPwwTWBwg", 'P');
  }

  lemma SampleRucksack3()
    ensures Shared(FirstHalf(Sample()[3]), SecondHalf(Sample()[3])) == Some('v')
  {
    HalvesShare(Sample()[3], "wMqvLMZHhHMvwLH", "jbvcjnnSBnvTQFn", 'v');
  }

  lemma SampleRucksack4()
    ensures Shared(FirstHalf(Sample()[4]), SecondHalf(Sample()[4])) == Some('t')
  {
    HalvesShare(Sample()[4], "ttgJtRGJ", "QctTZtZT", 't');
  }

  lemma SampleRucksack5()
    ensures Shared(FirstHalf(Sample()[5]), SecondHalf(Sample()[5])) == Some('s')
  {
    HalvesShare(Sample()[5], "CrZsJsPPZsGz", "wwsLwLmpwMDw", 's');
  }

  lemma SamplePrioSums()
    ensures PrioSum("pLPvts") == 157 && PrioSum("rZ") == 70
  {
    var s := "pLPvts";
    assert s[..1][..0] == [] && s[..2][..1] == s[..1] && s[..3][..2] == s[..2];
    assert s[..4][..3] == s[..3] && s[..5][..4] == s[..4] && s[..6][..5] == s[..5];
    assert PrioSum(s[..1]) == 16;
    assert PrioSum(s[..2]) == 54;
    assert PrioSum(s[..3]) == 96;
    assert PrioSum(s[..4]) == 118;
    assert PrioSum(s[..5]) == 138;
    assert s[..6] == s;
    var t := "rZ";
    assert t[..1][..0] == [] && t[..2][..1] == t[..1] && t[..2] == t;
    assert PrioSum(t[..1]) == 18;
  }

  lemma Part1OfSix(s: seq<string>)
    requires |s| == 6
    requires Shared(FirstHalf(s[0]), SecondHalf(s[0])) == Some('p')
    requires Shared(FirstHalf(s[1]), SecondHalf(s[1])) == Some('L')
    requires Shared(FirstHalf(s[2]), SecondHalf(s[2])) == Some('P')
    requires Shared(FirstHalf(s[3]), SecondHalf(s[3])) == Some('v')
    requires Shared(FirstHalf(s[4]), SecondHalf(s[4])) == Some('t')
    requires Shared(FirstHalf(s[5]), SecondHalf(s[5])) == Some('s')
    ensures Part1(s) == Some(157)
  {
    SamplePrioSums();
    Part1Sum(s, "pLPvts");
  }

  /** The worked example: the halves share p, L, P, v, t, s (157 in all). */
  lemma SamplePart1()
    ensures Part1(Sample()) == Some(157)
  {
    SampleRucksack0();
    SampleRucksack1();
    SampleRucksack2();
    SampleRucksack3();
    SampleRucksack4();
    SampleRucksack5();
    Part1OfSix(Sample());
  }

  /** The distinct items of a sample rucksack, as a set. */
  lemma ItemsOf0(s: string)
    requires s == "vJrwpWtwJgWrhcsFMMfFFhFp"
    ensures forall i :: 0 <= i < |s| ==> s[i] in {'v', 'J', 'r', 'w', 'p', 'W', 't', 'g', 'h', 'c', 's', 'F', 'M', 'f'}
  {
  }

  lemma ItemsOf1(s: string)
    requires s == "jqHRNqRjqzjGDLGLrsFMfFZSrLrFZsSL"
    ensures forall i :: 0 <= i < |s| ==> s[i] in {'j', 'q', 'H', 'R', 'N', 'z', 'G', 'D', 'L', 'r', 's', 'F', 'M', 'f', 'Z', 'S'}
  {
  }

  lemma ItemsOf3(s: string)
    requires s == "wMqvLMZHhHMvwLHjbvcjnnSBnvTQFn"
    ensures forall i :: 0 <= i < |s| ==> s[i] in {'w', 'M', 'q', 'v', 'L', 'Z', 'H', 'h', 'j', 'b', 'c', 'n', 'S', 'B', 'T', 'Q', 'F'}
  {
  }

  lemma ItemsOf5(s: string)
    requires s == "CrZsJsPPZsGzwwsLwLmpwMDw"
    ensures forall i :: 0 <= i < |s| ==> s[i] in {'C', 'r', 'Z', 's', 'J', 'P', 'G', 'z', 'w', 'L', 'm', 'p', 'M', 'D'}
  {
  }

  /** Apart from 'r', no item of the third rucksack is in both of the others. */
  lemma OnlyR(c: string, a: string, b: string)
    requires c == "PmmdzqPrVvPwwTWBwg"
    requires a == "vJrwpWtwJgWrhcsFMMfFFhFp"
    requires b == "jqHRNqRjqzjGDLGLrsFMfFZSrLrFZsSL"
    ensures forall k :: 0 <= k < |c| ==> c[k] == 'r' || c[k] !in a || c[k] !in b
  {
    ItemsOf0(a);
    ItemsOf1(b);
  }

  /** Apart from 'Z', no item of the third rucksack is in both of the others. */
  lemma OnlyZ(c: string, a: string, b: string)
    requires c == "ttgJtRGJQctTZtZT"
    requires a == "wMqvLMZHhHMvwLHjbvcjnnSBnvTQFn"
    requires b == "CrZsJsPPZsGzwwsLwLmpwMDw"
    ensures forall k :: 0 <= k < |c| ==> c[k] == 'Z' || c[k] !in a || c[k] !in b
  {
    ItemsOf3(a);
    ItemsOf5(b);
  }

  lemma SampleGroup0()
    ensures Shared3(Sample()[0], Sample()[1], Sample()[2]) == Some('r')
  {
    OnlyR(Sample()[2], Sample()[0], Sample()[1]);
    Shared3Is(Sample()[0], Sample()[1], Sample()[2], 'r');
  }

  lemma SampleGroup1()
    ensures Shared3(Sample()[3], Sample()[4], Sample()[5]) == Some('Z')
  {
    OnlyZ(Sample()[4], Sample()[3], Sample()[5]);
    Shared3Spec(Sample()[3], Sample()[4], Sample()[5]);
    assert UniqueShared3('Z', Sample()[3], Sample()[4], Sample()[5]);
  }

  lemma Part2OfTwo(s: seq<string>)
    requires |s| == 6
    requires Shared3(s[0], s[1], s[2]) == Some('r')
    requires Shared3(s[3], s[4], s[5]) == Some('Z')
    ensures Part2(s) == Some(70)
  {
    SamplePrioSums();
    Part2Sum(s, 0, "rZ");
  }

  /** The worked example: the two groups share r and Z (70 in all). */
  lemma SamplePart2()
    ensures Part2(Sample()) == Some(70)
  {
    SampleGroup0();
    SampleGroup1();
    Part2OfTwo(Sample());
  }

  /** The parse test: the six example lines, one per rucksack. */
  lemma SampleParse(input: string)
    requires input == "vJrwpWtwJgWrhcsFMMfFFhFp\njqHRNqRjqzjGDLGLrsFMfFZSrLrFZsSL\nPmmdzqPrVvPwwTWBwg\nwMqvLMZHhHMvwLHjbvcjnnSBnvTQFn\nttgJtRGJQctTZtZT\nCrZsJsPPZsGzwwsLwLmpwMDw"
    ensures Parse(input) == Some(Sample())
  {
    SampleInput(input);
    SampleJoin();
    SampleClean();
    ParseJoin(Sample());
  }

  lemma SampleInput(input: string)
    requires input == "vJrwpWtwJgWrhcsFMMfFFhFp\njqHRNqRjqzjGDLGLrsFMfFZSrLrFZsSL\nPmmdzqPrVvPwwTWBwg\nwMqvLMZHhHMvwLHjbvcjnnSBnvTQFn\nttgJtRGJQctTZtZT\nCrZsJsPPZsGzwwsLwLmpwMDw"
    ensures input == "vJrwpWtwJgWrhcsFMMfFFhFp" + "\n" + "jqHRNqRjqzjGDLGLrsFMfFZSrLrFZsSL" + "\n" + "PmmdzqPrVvPwwTWBwg"
                     + "\n" + "wMqvLMZHhHMvwLHjbvcjnnSBnvTQFn" + "\n" + "ttgJtRGJQctTZtZT" + "\n" + "CrZsJsPPZsGzwwsLwLmpwMDw"
  {
    SampleLinesSplit6(input);
    SampleLinesSplit5("vJrwpWtwJgWrhcsFMMfFFhFp\njqHRNqRjqzjGDLGLrsFMfFZSrLrFZsSL\nPmmdzqPrVvPwwTWBwg\nwMqvLMZHhHMvwLHjbvcjnnSBnvTQFn\nttgJtRGJQctTZtZT");
    SampleLinesSplit4("vJrwpWtwJgWrhcsFMMfFFhFp\njqHRNqRjqzjGDLGLrsFMfFZSrLrFZsSL\nPmmdzqPrVvPwwTWBwg\nwMqvLMZHhHMvwLHjbvcjnnSBnvTQFn");
    SampleLinesSplit3("vJrwpWtwJgWrhcsFMMfFFhFp\njqHRNqRjqzjGDLGLrsFMfFZSrLrFZsSL\nPmmdzqPrVvPwwTWBwg");
    SampleLinesSplit2("vJrwpWtwJgWrhcsFMMfFFhFp\njqHRNqRjqzjGDLGLrsFMfFZSrLrFZsSL");
  }

  lemma SampleLinesSplit6(s: string)
    requires s == "vJrwpWtwJgWrhcsFMMfFFhFp\njqHRNqRjqzjGDLGLrsFMfFZSrLrFZsSL\nPmmdzqPrVvPwwTWBwg\nwMqvLMZHhHMvwLHjbvcjnnSBnvTQFn\nttgJtRGJQctTZtZT\nCrZsJsPPZsGzwwsLwLmpwMDw"
    ensures s == "vJrwpWtwJgWrhcsFMMfFFhFp\njqHRNqRjqzjGDLGLrsFMfFZSrLrFZsSL\nPmmdzqPrVvPwwTWBwg\nwMqvLMZHhHMvwLHjbvcjnnSBnvTQFn\nttgJtRGJQctTZtZT" + "\n" + "CrZsJsPPZsGzwwsLwLmpwMDw"
  {
  }

  lemma SampleLinesSplit5(s: string)
    requires s == "vJrwpWtwJgWrhcsFMMfFFhFp\njqHRNqRjqzjGDLGLrsFMfFZSrLrFZsSL\nPmmdzqPrVvPwwTWBwg\nwMqvLMZHhHMvwLHjbvcjnnSBnvTQFn\nttgJtRGJQctTZtZT"
    ensures s == "vJrwpWtwJgWrhcsFMMfFFhFp\njqHRNqRjqzjGDLGLrsFMfFZSrLrFZsSL\nPmmdzqPrVvPwwTWBwg\nwMqvLMZHhHMvwLHjbvcjnnSBnvTQFn" + "\n" + "ttgJtRGJQctTZtZT"
  {
  }

  lemma SampleLinesSplit4(s: string)
    requires s == "vJrwpWtwJgWrhcsFMMfFFhFp\njqHRNqRjqzjGDLGLrsFMfFZSrLrFZsSL\nPmmdzqPrVvPwwTWBwg\nwMqvLMZHhHMvwLHjbvcjnnSBnvTQFn"
    ensures s == "vJrwpWtwJgWrhcsFMMfFFhFp\njqHRNqRjqzjGDLGLrsFMfFZSrLrFZsSL\nPmmdzqPrVvPwwTWBwg" + "\n" + "wMqvLMZHhHMvwLHjbvcjnnSBnvTQFn"
  {
  }

  lemma SampleLinesSplit3(s: string)
    requires s == "vJrwpWtwJgWrhcsFMMfFFhFp\njqHRNqRjqzjGDLGLrsFMfFZSrLrFZsSL\nPmmdzqPrVvPwwTWBwg"
    ensures s == "vJrwpWtwJgWrhcsFMMfFFhFp\njqHRNqRjqzjGDLGLrsFMfFZSrLrFZsSL" + "\n" + "PmmdzqPrVvPwwTWBwg"
  {
  }

  lemma SampleLinesSplit2(s: string)
    requires s == "vJrwpWtwJgWrhcsFMMfFFhFp\njqHRNqRjqzjGDLGLrsFMfFZSrLrFZsSL"
    ensures s == "vJrwpWtwJgWrhcsFMMfFFhFp" + "\n" + "jqHRNqRjqzjGDLGLrsFMfFZSrLrFZsSL"
  {
  }

  lemma SampleJoin()
    ensures Join(Sample(), "\n") == "vJrwpWtwJgWrhcsFMMfFFhFp" + "\n" + "jqHRNqRjqzjGDLGLrsFMfFZSrLrFZsSL" + "\n" + "PmmdzqPrVvPwwTWBwg"
                     + "\n" + "wMqvLMZHhHMvwLHjbvcjnnSBnvTQFn" + "\n" + "ttgJtRGJQctTZtZT" + "\n" + "CrZsJsPPZsGzwwsLwLmpwMDw"
  {
    var s := Sample();
    JoinSix(s[0], s[1], s[2], s[3], s[4], s[5], "\n");
    assert s == [s[0], s[1], s[2], s[3], s[4], s[5]];
  }

  /** Every example line has even length and holds neither a newline nor a
      final carriage return. */
  lemma SampleClean()
    ensures forall k :: 0 <= k < |Sample()| ==> '\n' !in Sample()[k] && StripCR(Sample()[k]) == Sample()[k]
    ensures forall k :: 0 <= k < |Sample()| ==> |Sample()[k]| % 2 == 0
  {
  }

  lemma JoinSix(a: string, b: string, c: string, d: string, e: string, f: string, sep: string)
    ensures Join([a, b, c, d, e, f], sep) == a + sep + b + sep + c + sep + d + sep + e + sep + f
  {
    JoinCons(e, [f], sep);
    assert [e, f] == [e] + [f];
    JoinCons(d, [e, f], sep);
    assert [d, e, f] == [d] + [e, f];
    JoinCons(c, [d, e, f], sep);
    assert [c, d, e, f] == [c] + [d, e, f];
    JoinCons(b, [c, d, e, f], sep);
    assert [b, c, d, e, f] == [b] + [c, d, e, f];
    JoinCons(a, [b, c, d, e, f], sep);
    assert [a, b, c, d, e, f] == [a] + [b, c, d, e, f];
  }
}

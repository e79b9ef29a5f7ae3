// Day 6, "Tuning Trouble": the end of the first window of `k` pairwise
// different characters in the datastream (k = 4 for a packet, 14 for a
// message).

module TuningTrouble {
  import opened Text

  /** The `k` characters starting at `i` are pairwise different. */
  predicate MarkerAt(input: string, i: nat, k: nat)
    requires i + k <= |input|
  {
    Distinct(input[i..i + k])
  }

  /** `r` is what the search returns: the end of the first all-different
      window of width `k`, a window that must start before `|input| - k`. */
  ghost predicate IsFirstMarker(input: string, k: nat, r: nat)
  {
    && k <= r < |input|
    && MarkerAt(input, r - k, k)
    && forall i: nat :: i < r - k ==> !MarkerAt(input, i, k)
  }

  /** The linear search of `part1`/`part2`: try each window start `i` below
      `|input| - k` and return `i + k` for the first window whose characters
      are all different; fail when there is none (including when the input
      is shorter than `k`). */
  method FirstMarker(input: string, k: nat) returns (r: Option<nat>)
    ensures r.Some? ==> IsFirstMarker(input, k, r.value)
    ensures r.None? ==> forall i: nat :: i + k < |input| ==> !MarkerAt(input, i, k)
  {
    if |input| < k {
      return None;
    }
    var i := 0;
    while i < |input| - k
      invariant 0 <= i <= |input| - k
      invariant forall j: nat :: j < i ==> !MarkerAt(input, j, k)
    {
      var window := input[i..i + k];
      DedupKeepsAllIffDistinct(window);
      if |Dedup(window)| == k {
        assert MarkerAt(input, i, k);
        return Some(i + k);
      }
      assert !MarkerAt(input, i, k);
      i := i + 1;
    }
    return None;
  }

  /** `part1`: the end of the first start-of-packet marker. */
  method Part1(input: string) returns (r: Option<nat>)
    ensures r.Some? ==> IsFirstMarker(input, 4, r.value)
    ensures r.None? ==> forall i: nat :: i + 4 < |input| ==> !MarkerAt(input, i, 4)
  {
    r := FirstMarker(input, 4);
  }

  /** `part2`: the end of the first start-of-message marker. */
  method Part2(input: string) returns (r: Option<nat>)
    ensures r.Some? ==> IsFirstMarker(input, 14, r.value)
    ensures r.None? ==> forall i: nat :: i + 14 < |input| ==> !MarkerAt(input, i, 14)
  {
    r := FirstMarker(input, 14);
  }

  /** There is only one first marker, so the search's answer is determined. */
  lemma FirstMarkerUnique(input: string, k: nat, r1: nat, r2: nat)
    requires IsFirstMarker(input, k, r1) && IsFirstMarker(input, k, r2)
    ensures r1 == r2
  {
    assert MarkerAt(input, r1 - k, k) && MarkerAt(input, r2 - k, k);
  }

  /** Any part of an all-different window is all different. */
  lemma MarkerShrinks(input: string, i: nat, k: nat, j: nat, m: nat)
    requires i + k <= |input| && MarkerAt(input, i, k)
    requires i <= j && j + m <= i + k
    ensures MarkerAt(input, j, m)
  {
    var w, v := input[i..i + k], input[j..j + m];
    forall a, b | 0 <= a < b < m ensures v[a] != v[b] {
      assert v[a] == w[j - i + a] && v[b] == w[j - i + b];
    }
  }

  /** A start-of-message marker ends no earlier than the start-of-packet
      marker: the last four characters of a message window are a packet
      window. */
  lemma PacketNoLaterThanMessage(input: string, p: nat, m: nat)
    requires IsFirstMarker(input, 4, p) && IsFirstMarker(input, 14, m)
    ensures p <= m
  {
    MarkerShrinks(input, m - 14, 14, m - 4, 4);
  }

  // ---------------------------------------------------------------------------
  // The last window

  /** The search range `0..len - k` stops one short: on `abcd` the whole
      input is a start-of-packet marker, yet no answer meets what the
      search returns, so `part1` fails on it. */
  lemma LastWindowMissed(input: string)
    requires input == "abcd"
    ensures MarkerAt(input, 0, 4)
    ensures forall r: nat :: !IsFirstMarker(input, 4, r)
  {
    assert input[0..4] == ['a', 'b', 'c', 'd'];
  }

  /** `r` ends the first all-different window of width `k`, every window
      considered, the last one included. */
  ghost predicate EndsFirstMarker(input: string, k: nat, r: nat)
  {
    && k <= r <= |input|
    && MarkerAt(input, r - k, k)
    && forall i: nat :: i < r - k ==> !MarkerAt(input, i, k)
  }

  /** The search with the range `0..=len - k`: it fails exactly when no
      window of width `k` is all different. */
  method FirstMarkerCorrected(input: string, k: nat) returns (r: Option<nat>)
    ensures r.Some? ==> EndsFirstMarker(input, k, r.value)
    ensures r.None? <==> forall i: nat :: i + k <= |input| ==> !MarkerAt(input, i, k)
  {
    if |input| < k {
      return None;
    }
    var i := 0;
    while i <= |input| - k
      invariant 0 <= i <= |input| - k + 1
      invariant forall j: nat :: j < i ==> !MarkerAt(input, j, k)
    {
      var window := input[i..i + k];
      DedupKeepsAllIffDistinct(window);
      if |Dedup(window)| == k {
        assert MarkerAt(input, i, k);
        return Some(i + k);
      }
      i := i + 1;
    }
    return None;
  }

  /** Whenever the search as written answers, the corrected search gives
      the same answer: that answer ends the first marker, and nothing else
      does. */
  lemma CorrectedAgrees(input: string, k: nat, r: nat)
    requires IsFirstMarker(input, k, r)
    ensures EndsFirstMarker(input, k, r)
    ensures forall r': nat :: EndsFirstMarker(input, k, r') ==> r' == r
  {
    forall r': nat | EndsFirstMarker(input, k, r') ensures r' == r {
      assert MarkerAt(input, r - k, k) && MarkerAt(input, r' - k, k);
    }
  }

  // ---------------------------------------------------------------------------
  // The worked examples

  /** A window with a repeated character is not a marker. */
  lemma RepeatBreaksMarker(input: string, i: nat, k: nat, a: nat, b: nat)
    requires i + k <= |input| && a < b < k && input[i + a] == input[i + b]
    ensures !MarkerAt(input, i, k)
  {
    assert input[i..i + k][a] == input[i..i + k][b];
  }

  lemma Sample0Chars0(s: string)
    requires s == "mjqjpqmgbljsphdztnvjfqwrcgsmlb"
    ensures s[0] == 'm' && s[1] == 'j' && s[2] == 'q' && s[3] == 'j' && s[4] == 'p' && s[5] == 'q' && s[6] == 'm'
  {
  }

  lemma Sample0Chars1(s: string)
    requires s == "mjqjpqmgbljsphdztnvjfqwrcgsmlb"
    ensures s[7] == 'g' && s[8] == 'b' && s[9] == 'l' && s[10] == 'j' && s[11] == 's' && s[12] == 'p' && s[13] == 'h'
  {
  }

  lemma Sample0Chars2(s: string)
    requires s == "mjqjpqmgbljsphdztnvjfqwrcgsmlb"
    ensures s[14] == 'd' && s[15] == 'z' && s[16] == 't' && s[17] == 'n' && s[18] == 'v'
  {
  }

  lemma Sample1Chars0(s: string)
    requires s == "nppdvjthqldpwncqszvftbrmjlhg"
    ensures s[0] == 'n' && s[1] == 'p' && s[2] == 'p' && s[3] == 'd' && s[4] == 'v' && s[5] == 'j' && s[6] == 't'
  {
  }

  lemma Sample1Chars1(s: string)
    requires s == "nppdvjthqldpwncqszvftbrmjlhg"
    ensures s[7] == 'h' && s[8] == 'q' && s[9] == 'l' && s[10] == 'd' && s[11] == 'p' && s[12] == 'w' && s[13] == 'n'
  {
  }

  lemma Sample1Chars2(s: string)
    requires s == "nppdvjthqldpwncqszvftbrmjlhg"
    ensures s[14] == 'c' && s[15] == 'q' && s[16] == 's' && s[17] == 'z' && s[18] == 'v' && s[19] == 'f' && s[20] == 't'
  {
  }

  lemma Sample1Chars3(s: string)
    requires s == "nppdvjthqldpwncqszvftbrmjlhg"
    ensures s[21] == 'b' && s[22] == 'r'
  {
  }

  lemma Sample2Chars0(s: string)
    requires s == "nznrnfrfntjfmvfwmzdfjlvtqnbhcprsg"
    ensures s[0] == 'n' && s[1] == 'z' && s[2] == 'n' && s[3] == 'r' && s[4] == 'n' && s[5] == 'f' && s[6] == 'r'
  {
  }

  lemma Sample2Chars1(s: string)
    requires s == "nznrnfrfntjfmvfwmzdfjlvtqnbhcprsg"
    ensures s[7] == 'f' && s[8] == 'n' && s[9] == 't' && s[10] == 'j' && s[11] == 'f' && s[12] == 'm' && s[13] == 'v'
  {
  }

  lemma Sample2Chars2(s: string)
    requires s == "nznrnfrfntjfmvfwmzdfjlvtqnbhcprsg"
    ensures s[14] == 'f' && s[15] == 'w' && s[16] == 'm' && s[17] == 'z' && s[18] == 'd' && s[19] == 'f' && s[20] == 'j'
  {
  }

  lemma Sample2Chars3(s: string)
    requires s == "nznrnfrfntjfmvfwmzdfjlvtqnbhcprsg"
    ensures s[21] == 'l' && s[22] == 'v' && s[23] == 't' && s[24] == 'q' && s[25] == 'n' && s[26] == 'b' && s[27] == 'h'
  {
  }

  lemma Sample2Chars4(s: string)
    requires s == "nznrnfrfntjfmvfwmzdfjlvtqnbhcprsg"
    ensures s[28] == 'c'
  {
  }

  lemma Sample3Chars0(s: string)
    requires s == "zcfzfwzzqfrljwzlrfnpqdbhtmscgvjw"
    ensures s[0] == 'z' && s[1] == 'c' && s[2] == 'f' && s[3] == 'z' && s[4] == 'f' && s[5] == 'w' && s[6] == 'z'
  {
  }

  lemma Sample3Chars1(s: string)
    requires s == "zcfzfwzzqfrljwzlrfnpqdbhtmscgvjw"
    ensures s[7] == 'z' && s[8] == 'q' && s[9] == 'f' && s[10] == 'r' && s[11] == 'l' && s[12] == 'j' && s[13] == 'w'
  {
  }

  lemma Sample3Chars2(s: string)
    requires s == "zcfzfwzzqfrljwzlrfnpqdbhtmscgvjw"
    ensures s[14] == 'z' && s[15] == 'l' && s[16] == 'r' && s[17] == 'f' && s[18] == 'n' && s[19] == 'p' && s[20] == 'q'
  {
  }

  lemma Sample3Chars3(s: string)
    requires s == "zcfzfwzzqfrljwzlrfnpqdbhtmscgvjw"
    ensures s[21] == 'd' && s[22] == 'b' && s[23] == 'h' && s[24] == 't' && s[25] == 'm'
  {
  }

  lemma SamplePacket0Window(s: string)
    requires s == "mjqjpqmgbljsphdztnvjfqwrcgsmlb"
    ensures MarkerAt(s, 3, 4)
  {
    Sample0Chars0(s);
    assert s[3..7] == "jpqm";
  }

  lemma SamplePacket0Earlier0(s: string)
    requires s == "mjqjpqmgbljsphdztnvjfqwrcgsmlb"
    ensures forall i: nat :: 0 <= i < 3 ==> !MarkerAt(s, i, 4)
  {
    Sample0Chars0(s);
    forall i: nat | 0 <= i < 3 ensures !MarkerAt(s, i, 4) {
      if i == 0 {
        RepeatBreaksMarker(s, 0, 4, 1, 3);
      } else if i == 1 {
        RepeatBreaksMarker(s, 1, 4, 0, 2);
      } else {
        RepeatBreaksMarker(s, 2, 4, 0, 3);
      }
    }
  }

  /** The sample datastream's packet marker ends after character 7. */
  lemma SamplePacket0()
    ensures IsFirstMarker("mjqjpqmgbljsphdztnvjfqwrcgsmlb", 4, 7)
  {
    SamplePacket0Window("mjqjpqmgbljsphdztnvjfqwrcgsmlb");
    SamplePacket0Earlier0("mjqjpqmgbljsphdztnvjfqwrcgsmlb");
  }

  lemma SamplePacket1Window(s: string)
    requires s == "nppdvjthqldpwncqszvftbrmjlhg"
    ensures MarkerAt(s, 2, 4)
  {
    Sample1Chars0(s);
    assert s[2..6] == "pdvj";
  }

  lemma SamplePacket1Earlier0(s: string)
    requires s == "nppdvjthqldpwncqszvftbrmjlhg"
    ensures forall i: nat :: 0 <= i < 2 ==> !MarkerAt(s, i, 4)
  {
    Sample1Chars0(s);
    forall i: nat | 0 <= i < 2 ensures !MarkerAt(s, i, 4) {
      if i == 0 {
        RepeatBreaksMarker(s, 0, 4, 1, 2);
      } else {
        RepeatBreaksMarker(s, 1, 4, 0, 1);
      }
    }
  }

  /** The sample datastream's packet marker ends after character 6. */
  lemma SamplePacket1()
    ensures IsFirstMarker("nppdvjthqldpwncqszvftbrmjlhg", 4, 6)
  {
    SamplePacket1Window("nppdvjthqldpwncqszvftbrmjlhg");
    SamplePacket1Earlier0("nppdvjthqldpwncqszvftbrmjlhg");
  }

  lemma SamplePacket2Window(s: string)
    requires s == "nznrnfrfntjfmvfwmzdfjlvtqnbhcprsg"
    ensures MarkerAt(s, 6, 4)
  {
    Sample2Chars0(s);
    Sample2Chars1(s);
    assert s[6..10] == "rfnt";
  }

  lemma SamplePacket2Earlier0(s: string)
    requires s == "nznrnfrfntjfmvfwmzdfjlvtqnbhcprsg"
    ensures forall i: nat :: 0 <= i < 5 ==> !MarkerAt(s, i, 4)
  {
    Sample2Chars0(s);
    Sample2Chars1(s);
    forall i: nat | 0 <= i < 5 ensures !MarkerAt(s, i, 4) {
      if i == 0 {
        RepeatBreaksMarker(s, 0, 4, 0, 2);
      } else if i == 1 {
        RepeatBreaksMarker(s, 1, 4, 1, 3);
      } else if i == 2 {
        RepeatBreaksMarker(s, 2, 4, 0, 2);
      } else if i == 3 {
        RepeatBreaksMarker(s, 3, 4, 0, 3);
      } else {
        RepeatBreaksMarker(s, 4, 4, 1, 3);
      }
    }
  }

  lemma SamplePacket2Earlier1(s: string)
    requires s == "nznrnfrfntjfmvfwmzdfjlvtqnbhcprsg"
    ensures forall i: nat :: 5 <= i < 6 ==> !MarkerAt(s, i, 4)
  {
    Sample2Chars0(s);
    Sample2Chars1(s);
    forall i: nat | 5 <= i < 6 ensures !MarkerAt(s, i, 4) {
      RepeatBreaksMarker(s, 5, 4, 0, 2);
    }
  }

  /** The sample datastream's packet marker ends after character 10. */
  lemma SamplePacket2()
    ensures IsFirstMarker("nznrnfrfntjfmvfwmzdfjlvtqnbhcprsg", 4, 10)
  {
    SamplePacket2Window("nznrnfrfntjfmvfwmzdfjlvtqnbhcprsg");
    SamplePacket2Earlier0("nznrnfrfntjfmvfwmzdfjlvtqnbhcprsg");
    SamplePacket2Earlier1("nznrnfrfntjfmvfwmzdfjlvtqnbhcprsg");
  }

  lemma SamplePacket3Window(s: string)
    requires s == "zcfzfwzzqfrljwzlrfnpqdbhtmscgvjw"
    ensures MarkerAt(s, 7, 4)
  {
    Sample3Chars1(s);
    assert s[7..11] == "zqfr";
  }

  lemma SamplePacket3Earlier0(s: string)
    requires s == "zcfzfwzzqfrljwzlrfnpqdbhtmscgvjw"
    ensures forall i: nat :: 0 <= i < 5 ==> !MarkerAt(s, i, 4)
  {
    Sample3Chars0(s);
    Sample3Chars1(s);
    forall i: nat | 0 <= i < 5 ensures !MarkerAt(s, i, 4) {
      if i == 0 {
        RepeatBreaksMarker(s, 0, 4, 0, 3);
      } else if i == 1 {
        RepeatBreaksMarker(s, 1, 4, 1, 3);
      } else if i == 2 {
        RepeatBreaksMarker(s, 2, 4, 0, 2);
      } else if i == 3 {
        RepeatBreaksMarker(s, 3, 4, 0, 3);
      } else {
        RepeatBreaksMarker(s, 4, 4, 2, 3);
      }
    }
  }

  lemma SamplePacket3Earlier1(s: string)
    requires s == "zcfzfwzzqfrljwzlrfnpqdbhtmscgvjw"
    ensures forall i: nat :: 5 <= i < 7 ==> !MarkerAt(s, i, 4)
  {
    Sample3Chars0(s);
    Sample3Chars1(s);
    forall i: nat | 5 <= i < 7 ensures !MarkerAt(s, i, 4) {
      if i == 5 {
        RepeatBreaksMarker(s, 5, 4, 1, 2);
      } else {
        RepeatBreaksMarker(s, 6, 4, 0, 1);
      }
    }
  }

  /** The sample datastream's packet marker ends after character 11. */
  lemma SamplePacket3()
    ensures IsFirstMarker("zcfzfwzzqfrljwzlrfnpqdbhtmscgvjw", 4, 11)
  {
    SamplePacket3Window("zcfzfwzzqfrljwzlrfnpqdbhtmscgvjw");
    SamplePacket3Earlier0("zcfzfwzzqfrljwzlrfnpqdbhtmscgvjw");
    SamplePacket3Earlier1("zcfzfwzzqfrljwzlrfnpqdbhtmscgvjw");
  }

  lemma SampleMessage0Window(s: string)
    requires s == "mjqjpqmgbljsphdztnvjfqwrcgsmlb"
    ensures MarkerAt(s, 5, 14)
  {
    Sample0Chars0(s);
    Sample0Chars1(s);
    Sample0Chars2(s);
    assert s[5..19] == "qmgbljsphdztnv";
  }

  lemma SampleMessage0Earlier0(s: string)
    requires s == "mjqjpqmgbljsphdztnvjfqwrcgsmlb"
    ensures forall i: nat :: 0 <= i < 5 ==> !MarkerAt(s, i, 14)
  {
    Sample0Chars0(s);
    Sample0Chars1(s);
    forall i: nat | 0 <= i < 5 ensures !MarkerAt(s, i, 14) {
      if i == 0 {
        RepeatBreaksMarker(s, 0, 14, 0, 6);
      } else if i == 1 {
        RepeatBreaksMarker(s, 1, 14, 0, 2);
      } else if i == 2 {
        RepeatBreaksMarker(s, 2, 14, 0, 3);
      } else if i == 3 {
        RepeatBreaksMarker(s, 3, 14, 0, 7);
      } else {
        RepeatBreaksMarker(s, 4, 14, 0, 8);
      }
    }
  }

  /** The sample datastream's message marker ends after character 19. */
  lemma SampleMessage0()
    ensures IsFirstMarker("mjqjpqmgbljsphdztnvjfqwrcgsmlb", 14, 19)
  {
    SampleMessage0Window("mjqjpqmgbljsphdztnvjfqwrcgsmlb");
    SampleMessage0Earlier0("mjqjpqmgbljsphdztnvjfqwrcgsmlb");
  }

  lemma SampleMessage1Window(s: string)
    requires s == "nppdvjthqldpwncqszvftbrmjlhg"
    ensures MarkerAt(s, 9, 14)
  {
    Sample1Chars1(s);
    Sample1Chars2(s);
    Sample1Chars3(s);
    assert s[9..23] == "ldpwncqszvftbr";
  }

  lemma SampleMessage1Earlier0(s: string)
    requires s == "nppdvjthqldpwncqszvftbrmjlhg"
    ensures forall i: nat :: 0 <= i < 5 ==> !MarkerAt(s, i, 14)
  {
    Sample1Chars0(s);
    Sample1Chars1(s);
    Sample1Chars2(s);
    forall i: nat | 0 <= i < 5 ensures !MarkerAt(s, i, 14) {
      if i == 0 {
        RepeatBreaksMarker(s, 0, 14, 0, 13);
      } else if i == 1 {
        RepeatBreaksMarker(s, 1, 14, 0, 1);
      } else if i == 2 {
        RepeatBreaksMarker(s, 2, 14, 0, 9);
      } else if i == 3 {
        RepeatBreaksMarker(s, 3, 14, 0, 7);
      } else {
        RepeatBreaksMarker(s, 4, 14, 4, 11);
      }
    }
  }

  lemma SampleMessage1Earlier1(s: string)
    requires s == "nppdvjthqldpwncqszvftbrmjlhg"
    ensures forall i: nat :: 5 <= i < 9 ==> !MarkerAt(s, i, 14)
  {
    Sample1Chars1(s);
    Sample1Chars2(s);
    forall i: nat | 5 <= i < 9 ensures !MarkerAt(s, i, 14) {
      if i == 5 {
        RepeatBreaksMarker(s, 5, 14, 3, 10);
      } else if i == 6 {
        RepeatBreaksMarker(s, 6, 14, 2, 9);
      } else if i == 7 {
        RepeatBreaksMarker(s, 7, 14, 1, 8);
      } else {
        RepeatBreaksMarker(s, 8, 14, 0, 7);
      }
    }
  }

  /** The sample datastream's message marker ends after character 23. */
  lemma SampleMessage1()
    ensures IsFirstMarker("nppdvjthqldpwncqszvftbrmjlhg", 14, 23)
  {
    SampleMessage1Window("nppdvjthqldpwncqszvftbrmjlhg");
    SampleMessage1Earlier0("nppdvjthqldpwncqszvftbrmjlhg");
    SampleMessage1Earlier1("nppdvjthqldpwncqszvftbrmjlhg");
  }

  lemma SampleMessage2Window(s: string)
    requires s == "nznrnfrfntjfmvfwmzdfjlvtqnbhcprsg"
    ensures MarkerAt(s, 15, 14)
  {
    Sample2Chars2(s);
    Sample2Chars3(s);
    Sample2Chars4(s);
    assert s[15..29] == "wmzdfjlvtqnbhc";
  }

  lemma SampleMessage2Earlier0(s: string)
    requires s == "nznrnfrfntjfmvfwmzdfjlvtqnbhcprsg"
    ensures forall i: nat :: 0 <= i < 5 ==> !MarkerAt(s, i, 14)
  {
    Sample2Chars0(s);
    Sample2Chars1(s);
    forall i: nat | 0 <= i < 5 ensures !MarkerAt(s, i, 14) {
      if i == 0 {
        RepeatBreaksMarker(s, 0, 14, 0, 2);
      } else if i == 1 {
        RepeatBreaksMarker(s, 1, 14, 1, 3);
      } else if i == 2 {
        RepeatBreaksMarker(s, 2, 14, 0, 2);
      } else if i == 3 {
        RepeatBreaksMarker(s, 3, 14, 0, 3);
      } else {
        RepeatBreaksMarker(s, 4, 14, 0, 4);
      }
    }
  }

  lemma SampleMessage2Earlier1(s: string)
    requires s == "nznrnfrfntjfmvfwmzdfjlvtqnbhcprsg"
    ensures forall i: nat :: 5 <= i < 10 ==> !MarkerAt(s, i, 14)
  {
    Sample2Chars0(s);
    Sample2Chars1(s);
    Sample2Chars2(s);
    forall i: nat | 5 <= i < 10 ensures !MarkerAt(s, i, 14) {
      if i == 5 {
        RepeatBreaksMarker(s, 5, 14, 0, 2);
      } else if i == 6 {
        RepeatBreaksMarker(s, 6, 14, 1, 5);
      } else if i == 7 {
        RepeatBreaksMarker(s, 7, 14, 0, 4);
      } else if i == 8 {
        RepeatBreaksMarker(s, 8, 14, 2, 12);
      } else {
        RepeatBreaksMarker(s, 9, 14, 1, 11);
      }
    }
  }

  lemma SampleMessage2Earlier2(s: string)
    requires s == "nznrnfrfntjfmvfwmzdfjlvtqnbhcprsg"
    ensures forall i: nat :: 10 <= i < 15 ==> !MarkerAt(s, i, 14)
  {
    Sample2Chars1(s);
    Sample2Chars2(s);
    Sample2Chars3(s);
    forall i: nat | 10 <= i < 15 ensures !MarkerAt(s, i, 14) {
      if i == 10 {
        RepeatBreaksMarker(s, 10, 14, 0, 10);
      } else if i == 11 {
        RepeatBreaksMarker(s, 11, 14, 0, 3);
      } else if i == 12 {
        RepeatBreaksMarker(s, 12, 14, 0, 4);
      } else if i == 13 {
        RepeatBreaksMarker(s, 13, 14, 0, 9);
      } else {
        RepeatBreaksMarker(s, 14, 14, 0, 5);
      }
    }
  }

  /** The sample datastream's message marker ends after character 29. */
  lemma SampleMessage2()
    ensures IsFirstMarker("nznrnfrfntjfmvfwmzdfjlvtqnbhcprsg", 14, 29)
  {
    SampleMessage2Window("nznrnfrfntjfmvfwmzdfjlvtqnbhcprsg");
    SampleMessage2Earlier0("nznrnfrfntjfmvfwmzdfjlvtqnbhcprsg");
    SampleMessage2Earlier1("nznrnfrfntjfmvfwmzdfjlvtqnbhcprsg");
    SampleMessage2Earlier2("nznrnfrfntjfmvfwmzdfjlvtqnbhcprsg");
  }

  lemma SampleMessage3Window(s: string)
    requires s == "zcfzfwzzqfrljwzlrfnpqdbhtmscgvjw"
    ensures MarkerAt(s, 12, 14)
  {
    Sample3Chars1(s);
    Sample3Chars2(s);
    Sample3Chars3(s);
    assert s[12..26] == "jwzlrfnpqdbhtm";
  }

  lemma SampleMessage3Earlier0(s: string)
    requires s == "zcfzfwzzqfrljwzlrfnpqdbhtmscgvjw"
    ensures forall i: nat :: 0 <= i < 5 ==> !MarkerAt(s, i, 14)
  {
    Sample3Chars0(s);
    Sample3Chars1(s);
    forall i: nat | 0 <= i < 5 ensures !MarkerAt(s, i, 14) {
      if i == 0 {
        RepeatBreaksMarker(s, 0, 14, 0, 3);
      } else if i == 1 {
        RepeatBreaksMarker(s, 1, 14, 1, 3);
      } else if i == 2 {
        RepeatBreaksMarker(s, 2, 14, 0, 2);
      } else if i == 3 {
        RepeatBreaksMarker(s, 3, 14, 0, 3);
      } else {
        RepeatBreaksMarker(s, 4, 14, 0, 5);
      }
    }
  }

  lemma SampleMessage3Earlier1(s: string)
    requires s == "zcfzfwzzqfrljwzlrfnpqdbhtmscgvjw"
    ensures forall i: nat :: 5 <= i < 10 ==> !MarkerAt(s, i, 14)
  {
    Sample3Chars0(s);
    Sample3Chars1(s);
    Sample3Chars2(s);
    forall i: nat | 5 <= i < 10 ensures !MarkerAt(s, i, 14) {
      if i == 5 {
        RepeatBreaksMarker(s, 5, 14, 0, 8);
      } else if i == 6 {
        RepeatBreaksMarker(s, 6, 14, 0, 1);
      } else if i == 7 {
        RepeatBreaksMarker(s, 7, 14, 0, 7);
      } else if i == 8 {
        RepeatBreaksMarker(s, 8, 14, 0, 12);
      } else {
        RepeatBreaksMarker(s, 9, 14, 0, 8);
      }
    }
  }

  lemma SampleMessage3Earlier2(s: string)
    requires s == "zcfzfwzzqfrljwzlrfnpqdbhtmscgvjw"
    ensures forall i: nat :: 10 <= i < 12 ==> !MarkerAt(s, i, 14)
  {
    Sample3Chars1(s);
    Sample3Chars2(s);
    forall i: nat | 10 <= i < 12 ensures !MarkerAt(s, i, 14) {
      if i == 10 {
        RepeatBreaksMarker(s, 10, 14, 0, 6);
      } else {
        RepeatBreaksMarker(s, 11, 14, 0, 4);
      }
    }
  }

  /** The sample datastream's message marker ends after character 26. */
  lemma SampleMessage3()
    ensures IsFirstMarker("zcfzfwzzqfrljwzlrfnpqdbhtmscgvjw", 14, 26)
  {
    SampleMessage3Window("zcfzfwzzqfrljwzlrfnpqdbhtmscgvjw");
    SampleMessage3Earlier0("zcfzfwzzqfrljwzlrfnpqdbhtmscgvjw");
    SampleMessage3Earlier1("zcfzfwzzqfrljwzlrfnpqdbhtmscgvjw");
    SampleMessage3Earlier2("zcfzfwzzqfrljwzlrfnpqdbhtmscgvjw");
  }
}

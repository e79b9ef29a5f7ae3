// Day 2, "Rock Paper Scissors": score a strategy guide, first reading the
// second column as your shape, then as the result you should reach.

module RockPaperScissors {
  import opened Text

  const ROCK: int := 0
  const PAPER: int := 1
  const SCISSOR: int := 2
  const SHOULD_LOSE: int := 0
  const SHOULD_TIE: int := 1
  const SHOULD_WIN: int := 2
  const TIE: int := 3
  const WIN: int := 6

  /** A parsed line: the elf's column and the second column, as offsets from
      'A' and 'X' (any byte gives some offset; only 0..2 are shapes). */
  type Round = (int, int)

  predicate IsShape(x: int)
  {
    0 <= x <= 2
  }

  function Abs(x: int): int
  {
    if x < 0 then -x else x
  }

  /** Reference rule of the game: `you` beats `elf` when it is one step ahead
      in the cycle rock, paper, scissors. */
  predicate Beats(you: int, elf: int)
  {
    (you - elf) % 3 == 1
  }

  // ---------------------------------------------------------------------------
  // Parsing

  /** One line must be exactly three bytes; the first and last are read as
      offsets from 'A' and 'X' and the middle one is ignored. */
  function ParseLine(line: string): (r: Option<Round>)
    ensures r.Some? <==> |line| == 3
    ensures r.Some? && 'A' <= line[0] <= 'C' ==> IsShape(r.value.0)
    ensures r.Some? && 'X' <= line[2] <= 'Z' ==> IsShape(r.value.1)
  {
    if |line| == 3 then Some((line[0] as int - 'A' as int, line[2] as int - 'X' as int))
    else None
  }

  /** Writing a round as `A X` and reading it back gives the round. */
  lemma ParseLineText(e: int, y: int, gap: char)
    requires IsShape(e) && IsShape(y)
    ensures ParseLine([('A' as int + e) as char, gap, ('X' as int + y) as char]) == Some((e, y))
  {
  }

  /** `parse`: a loop pushing one round per input line; a line that is not
      three bytes long fails. */
  method Parse(input: string) returns (r: Option<seq<Round>>)
    ensures r == AllOrNone(Lines(input), ParseLine)
  {
    var lines := Lines(input);
    var vec: seq<Round> := [];
    var i := 0;
    while i < |lines|
      invariant 0 <= i <= |lines|
      invariant AllOrNone(lines[..i], ParseLine) == Some(vec)
    {
      var line := lines[i];
      if |line| != 3 {
        AllOrNoneFails(lines, ParseLine, i);
        return None;
      }
      var round := (line[0] as int - 'A' as int, line[2] as int - 'X' as int);
      AllOrNoneStep(lines, ParseLine, i, vec, round);
      vec := vec + [round];
      i := i + 1;
    }
    assert lines[..i] == lines;
    r := Some(vec);
  }

  // ---------------------------------------------------------------------------
  // Part 1: the second column is your shape

  /** The outcome term of `part1`: 3 on a tie, otherwise the source's
      per-shape formula; an elf column outside 0..2 (and unequal to yours)
      panics. */
  function Outcome(round: Round): Option<int>
  {
    if round.0 == round.1 then Some(TIE)
    else if round.0 == ROCK then Some(Abs((round.1 - 2) * WIN))
    else if round.0 == PAPER then Some(Abs(round.1 * 3))
    else if round.0 == SCISSOR then Some(Abs((round.1 - 1) * 6))
    else None
  }

  /** The score of one round in `part1`: your shape's value plus the outcome. */
  function Score1(round: Round): Option<int>
  {
    match Outcome(round)
    case Some(o) => Some(round.1 + 1 + o)
    case None => None
  }

  /** For two shapes, the source's formulas give 3 for a tie, 6 when your
      shape beats the elf's and 0 when it loses, so a round scores 1..9. */
  lemma OutcomeMatchesRules(elf: int, you: int)
    requires IsShape(elf) && IsShape(you)
    ensures Outcome((elf, you)) == Some(if elf == you then TIE else if Beats(you, elf) then WIN else 0)
    ensures 1 <= Score1((elf, you)).value <= 9
  {
  }

  /** The total over all rounds, failing if any round fails. */
  function Total(rounds: seq<Round>, score: Round -> Option<int>): Option<int>
  {
    if rounds == [] then Some(0)
    else
      match (Total(rounds[..|rounds| - 1], score), score(rounds[|rounds| - 1]))
      case (Some(t), Some(s)) => Some(t + s)
      case _ => None
  }

  /** `part1`: the total score with the second column read as your shape;
      it fails exactly when some round has no score. */
  function Part1(rounds: seq<Round>): (r: Option<int>)
    ensures r.None? <==> exists k :: 0 <= k < |rounds| && Score1(rounds[k]).None?
  {
    TotalSucceeds(rounds, Score1);
    Total(rounds, Score1)
  }

  /** The total exists exactly when every round scores. */
  lemma {:induction false} TotalSucceeds(rounds: seq<Round>, score: Round -> Option<int>)
    ensures Total(rounds, score).Some? <==> forall k :: 0 <= k < |rounds| ==> score(rounds[k]).Some?
  {
    if rounds != [] {
      var init := rounds[..|rounds| - 1];
      TotalSucceeds(init, score);
      assert forall k :: 0 <= k < |init| ==> init[k] == rounds[k];
    }
  }

  /** When every column holds a shape, `part1` cannot fail and each round
      adds between 1 and 9. */
  lemma {:induction false} Part1Bounds(rounds: seq<Round>)
    requires forall k :: 0 <= k < |rounds| ==> IsShape(rounds[k].0) && IsShape(rounds[k].1)
    ensures Part1(rounds).Some?
    ensures |rounds| <= Part1(rounds).value <= 9 * |rounds|
  {
    if rounds != [] {
      var last := rounds[|rounds| - 1];
      Part1Bounds(rounds[..|rounds| - 1]);
      OutcomeMatchesRules(last.0, last.1);
    }
  }

  // ---------------------------------------------------------------------------
  // Part 2: the second column is the result you should reach

  /** The shape `part2` picks for an elf shape and a wanted result; pairs
      outside the source's table panic. A tie copies the elf's column,
      whatever it is. */
  function Choose(elf: int, expected: int): Option<int>
  {
    if elf == ROCK && expected == SHOULD_LOSE then Some(SCISSOR)
    else if elf == ROCK && expected == SHOULD_WIN then Some(PAPER)
    else if elf == PAPER && expected == SHOULD_LOSE then Some(ROCK)
    else if elf == PAPER && expected == SHOULD_WIN then Some(SCISSOR)
    else if elf == SCISSOR && expected == SHOULD_LOSE then Some(PAPER)
    else if elf == SCISSOR && expected == SHOULD_WIN then Some(ROCK)
    else if expected == SHOULD_TIE then Some(elf)
    else None
  }

  /** The score of one round in `part2`. */
  function Score2(round: Round): Option<int>
  {
    match Choose(round.0, round.1)
    case Some(you) => Some(you + 1 + round.1 * 3)
    case None => None
  }

  /** The chosen shape loses to, ties with, or beats the elf's shape exactly
      as asked; the table fails exactly outside its rows. */
  lemma ChooseReachesExpected(elf: int, expected: int)
    ensures Choose(elf, expected).None? <==>
              expected != SHOULD_TIE && !(IsShape(elf) && (expected == SHOULD_LOSE || expected == SHOULD_WIN))
    ensures IsShape(elf) && IsShape(expected) ==>
              var you := Choose(elf, expected).value;
              IsShape(you) && Outcome((elf, you)) == Some(3 * expected)
  {
    if IsShape(elf) && IsShape(expected) {
      OutcomeMatchesRules(elf, Choose(elf, expected).value);
    }
  }

  /** A `part2` round scores what `part1` would give the round you play. */
  lemma Score2IsScore1OfChosen(elf: int, expected: int)
    requires IsShape(elf) && IsShape(expected)
    ensures Score2((elf, expected)) == Score1((elf, Choose(elf, expected).value))
  {
    ChooseReachesExpected(elf, expected);
  }

  /** The rounds you play when following the guide's wanted results. */
  function Played(rounds: seq<Round>): (played: seq<Round>)
    requires forall k :: 0 <= k < |rounds| ==> IsShape(rounds[k].0) && IsShape(rounds[k].1)
    ensures |played| == |rounds|
  {
    seq(|rounds|, k requires 0 <= k < |rounds| => (rounds[k].0, ChosenShape(rounds[k].0, rounds[k].1)))
  }

  function ChosenShape(elf: int, expected: int): (you: int)
    requires IsShape(elf) && IsShape(expected)
    ensures Choose(elf, expected) == Some(you)
  {
    ChooseReachesExpected(elf, expected);
    Choose(elf, expected).value
  }

  /** The `part2` total equals the `part1` total of the rounds actually played. */
  lemma {:induction false} Part2IsPart1OfPlayed(rounds: seq<Round>)
    requires forall k :: 0 <= k < |rounds| ==> IsShape(rounds[k].0) && IsShape(rounds[k].1)
    ensures Total(rounds, Score2) == Part1(Played(rounds))
  {
    if rounds != [] {
      var init := rounds[..|rounds| - 1];
      var last := rounds[|rounds| - 1];
      Part2IsPart1OfPlayed(init);
      assert Played(rounds)[..|rounds| - 1] == Played(init);
      Score2IsScore1OfChosen(last.0, last.1);
    }
  }

  /** `part2`: a loop adding each round's score to a running sum. */
  method Part2(rounds: seq<Round>) returns (r: Option<int>)
    ensures r == Total(rounds, Score2)
  {
    var sum := 0;
    var i := 0;
    while i < |rounds|
      invariant 0 <= i <= |rounds|
      invariant Total(rounds[..i], Score2) == Some(sum)
    {
      var (elf, expected) := rounds[i];
      var you := Choose(elf, expected);
      if you.None? {
        TotalFailsAt(rounds, Score2, i);
        return None;
      }
      sum := sum + you.value + 1 + expected * 3;
      assert rounds[..i + 1][..i] == rounds[..i];
      i := i + 1;
    }
    assert rounds[..i] == rounds;
    r := Some(sum);
  }

  lemma {:induction false} TotalFailsAt(rounds: seq<Round>, score: Round -> Option<int>, i: nat)
    requires i < |rounds| && score(rounds[i]).None?
    ensures Total(rounds, score).None?
  {
    if i < |rounds| - 1 {
      assert rounds[..|rounds| - 1][i] == rounds[i];
      TotalFailsAt(rounds[..|rounds| - 1], score, i);
    }
  }

  /** The sample `A X`, `B Y`, `C Z` parses to the three equal-offset rounds. */
  lemma SampleParse()
    ensures AllOrNone(Lines("A X\nB Y\nC Z"), ParseLine) == Some([(0, 0), (1, 1), (2, 2)])
  {
    var ls := ["A X", "B Y", "C Z"];
    LinesOfJoin(ls);
    assert Join(ls, "\n") == "A X\nB Y\nC Z";
    var r := AllOrNone(ls, ParseLine);
    assert ParseLine(ls[0]) == Some((0, 0)) && ParseLine(ls[1]) == Some((1, 1)) && ParseLine(ls[2]) == Some((2, 2));
    assert r.value == [(0, 0), (1, 1), (2, 2)];
  }

  /** The sample guide `A Y`, `B X`, `C Z` scores 15 and 12. */
  lemma SampleAnswers()
    ensures Part1([(ROCK, PAPER), (PAPER, ROCK), (SCISSOR, SCISSOR)]) == Some(15)
    ensures Total([(ROCK, PAPER), (PAPER, ROCK), (SCISSOR, SCISSOR)], Score2) == Some(12)
  {
    var s: seq<Round> := [(ROCK, PAPER), (PAPER, ROCK), (SCISSOR, SCISSOR)];
    assert s[..2][..1] == s[..1] && s[..1][..0] == [] && s[..3] == s;
    assert Total(s[..1], Score1) == Some(8) && Total(s[..1], Score2) == Some(4);
    assert Total(s[..2], Score1) == Some(9) && Total(s[..2], Score2) == Some(5);
  }
}

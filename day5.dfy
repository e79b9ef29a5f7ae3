// Day 5, "Supply Stacks": a drawing of crate stacks and a list of moves; the
// crates on top after a crane that lifts one crate at a time (part 1) or a
// whole block at once (part 2).

module SupplyStacks {
  import opened Text

  /** `move count from from to to`, with 1-based stack numbers. */
  datatype Move = Move(count: nat, from: nat, to: nat)

  /** The parsed puzzle: stacks listed bottom to top, then the moves. */
  datatype Input = Input(stacks: seq<seq<char>>, instructions: seq<Move>)

  type Stacks = seq<seq<char>>

  /** `n` names a stack: `stacks[n - 1]` neither underflows nor runs past the end. */
  predicate IsStack(stacks: Stacks, n: nat)
  {
    1 <= n <= |stacks|
  }

  /** The number of crates on all stacks. */
  function Crates(stacks: Stacks): nat
  {
    if stacks == [] then 0 else Crates(stacks[..|stacks| - 1]) + |stacks[|stacks| - 1]|
  }

  /** Replacing one stack changes the crate count by the difference in height. */
  lemma {:induction false} CratesUpdate(stacks: Stacks, k: nat, t: seq<char>)
    requires k < |stacks|
    ensures Crates(stacks[k := t]) + |stacks[k]| == Crates(stacks) + |t|
  {
    var n := |stacks|;
    var u := stacks[k := t];
    if k < n - 1 {
      assert u[..n - 1] == stacks[..n - 1][k := t];
      CratesUpdate(stacks[..n - 1], k, t);
    } else {
      assert u[..n - 1] == stacks[..n - 1];
    }
  }

  // ---------------------------------------------------------------------------
  // The two cranes

  /** One pop from `from` and one push onto `to`; an unnamed or empty source
      stack, or an unnamed target, panics. */
  function MoveOne(stacks: Stacks, from: nat, to: nat): (r: Option<Stacks>)
    ensures r.Some? ==> |r.value| == |stacks|
  {
    if !IsStack(stacks, from) || stacks[from - 1] == [] then None
    else
      var src := stacks[from - 1];
      var popped := stacks[from - 1 := src[..|src| - 1]];
      if !IsStack(stacks, to) then None
      else Some(popped[to - 1 := popped[to - 1] + [src[|src| - 1]]])
  }

  /** `n` single-crate moves in a row. */
  function MoveOneByOne(stacks: Stacks, from: nat, to: nat, n: nat): (r: Option<Stacks>)
    ensures r.Some? ==> |r.value| == |stacks|
  {
    if n == 0 then Some(stacks)
    else
      match MoveOneByOne(stacks, from, to, n - 1)
      case None => None
      case Some(s) => MoveOne(s, from, to)
  }

  /** The crane of part 1 lifts one crate at a time. */
  function CrateMover9000(stacks: Stacks, mv: Move): Option<Stacks>
  {
    MoveOneByOne(stacks, mv.from, mv.to, mv.count)
  }

  /** The crane of part 2: a single crate moves as in part 1; otherwise the
      top `count` crates are split off `from` (more than the stack holds
      panics) and appended to `to` in the same order. */
  function CrateMover9001(stacks: Stacks, mv: Move): (r: Option<Stacks>)
    ensures r.Some? ==> |r.value| == |stacks|
  {
    if mv.count == 1 then MoveOne(stacks, mv.from, mv.to)
    else if !IsStack(stacks, mv.from) || mv.count > |stacks[mv.from - 1]| then None
    else
      var src := stacks[mv.from - 1];
      var rest := stacks[mv.from - 1 := src[..|src| - mv.count]];
      if !IsStack(stacks, mv.to) then None
      else Some(rest[mv.to - 1 := rest[mv.to - 1] + src[|src| - mv.count..]])
  }

  /** The moves applied in order; the first failing move fails the run. */
  function Run(stacks: Stacks, moves: seq<Move>, crane: (Stacks, Move) -> Option<Stacks>): Option<Stacks>
  {
    if moves == [] then Some(stacks)
    else
      match Run(stacks, moves[..|moves| - 1], crane)
      case None => None
      case Some(s) => crane(s, moves[|moves| - 1])
  }

  /** The top crate of every non-empty stack, left to right. */
  function Tops(stacks: Stacks): (r: string)
    ensures |r| <= |stacks|
  {
    if stacks == [] then ""
    else
      var last := stacks[|stacks| - 1];
      Tops(stacks[..|stacks| - 1]) + (if last == [] then "" else [last[|last| - 1]])
  }

  /** The answer for a crane: the tops after all moves, or a panic. */
  function Answer(input: Input, crane: (Stacks, Move) -> Option<Stacks>): Option<string>
  {
    match Run(input.stacks, input.instructions, crane)
    case None => None
    case Some(s) => Some(Tops(s))
  }

  // ---------------------------------------------------------------------------
  // What the cranes do

  /** Between distinct named stacks, `n` single moves (as many as the source
      holds at most) take the top `n` crates off `from` and leave them on
      `to` in reverse order; every other stack is untouched. */
  lemma {:induction false} OneByOneReverses(stacks: Stacks, from: nat, to: nat, n: nat)
    requires IsStack(stacks, from) && IsStack(stacks, to) && from != to
    requires n <= |stacks[from - 1]|
    ensures var r := MoveOneByOne(stacks, from, to, n);
            var src := stacks[from - 1];
            && r.Some?
            && r.value[from - 1] == src[..|src| - n]
            && r.value[to - 1] == stacks[to - 1] + Reverse(src[|src| - n..])
            && forall k :: 0 <= k < |stacks| && k != from - 1 && k != to - 1 ==> r.value[k] == stacks[k]
  {
    var src := stacks[from - 1];
    if n == 0 {
      assert src[|src|..] == [];
    } else {
      OneByOneReverses(stacks, from, to, n - 1);
      var s := MoveOneByOne(stacks, from, to, n - 1).value;
      var block := src[|src| - n..];
      assert s[from - 1] == src[..|src| - n + 1];
      assert block[1..] == src[|src| - n + 1..];
      assert s[from - 1][|s[from - 1]| - 1] == block[0];
      assert s[from - 1][..|s[from - 1]| - 1] == src[..|src| - n];
    }
  }

  /** Moving onto the source stack itself puts every crate back: the stacks
      are unchanged, as long as that stack is not empty. */
  lemma {:induction false} OneByOneOntoItself(stacks: Stacks, from: nat, n: nat)
    requires IsStack(stacks, from) && stacks[from - 1] != []
    ensures MoveOneByOne(stacks, from, from, n) == Some(stacks)
  {
    if n > 0 {
      OneByOneOntoItself(stacks, from, n - 1);
      var src := stacks[from - 1];
      var popped := stacks[from - 1 := src[..|src| - 1]];
      assert popped[from - 1] + [src[|src| - 1]] == src;
      assert popped[from - 1 := src] == stacks;
      assert MoveOne(stacks, from, from) == Some(stacks);
    }
  }

  lemma {:induction false} OneByOneFailsLater(stacks: Stacks, from: nat, to: nat, i: nat, n: nat)
    requires i <= n && MoveOneByOne(stacks, from, to, i).None?
    ensures MoveOneByOne(stacks, from, to, n).None?
  {
    if i < n {
      OneByOneFailsLater(stacks, from, to, i, n - 1);
    }
  }

  /** Between distinct stacks, part 1's crane fails exactly when it has work
      to do and a stack number is out of range or the source runs out. */
  lemma CrateMover9000Fails(stacks: Stacks, mv: Move)
    requires mv.from != mv.to
    ensures CrateMover9000(stacks, mv).None? <==>
              mv.count > 0 && (!IsStack(stacks, mv.from) || !IsStack(stacks, mv.to) || mv.count > |stacks[mv.from - 1]|)
  {
    if mv.count > 0 {
      if !IsStack(stacks, mv.from) || !IsStack(stacks, mv.to) {
        OneByOneFailsLater(stacks, mv.from, mv.to, 1, mv.count);
      } else if mv.count > |stacks[mv.from - 1]| {
        var len := |stacks[mv.from - 1]|;
        OneByOneReverses(stacks, mv.from, mv.to, len);
        assert MoveOneByOne(stacks, mv.from, mv.to, len + 1).None?;
        OneByOneFailsLater(stacks, mv.from, mv.to, len + 1, mv.count);
      } else {
        OneByOneReverses(stacks, mv.from, mv.to, mv.count);
      }
    }
  }

  /** Part 2's crane lifts the same crates as part 1's and leaves every stack
      alike except the target, where its block keeps its order while part
      1's is reversed. */
  lemma BlockKeepsOrder(stacks: Stacks, mv: Move)
    requires IsStack(stacks, mv.from) && IsStack(stacks, mv.to) && mv.from != mv.to
    requires mv.count <= |stacks[mv.from - 1]|
    ensures var src := stacks[mv.from - 1];
            var block := src[|src| - mv.count..];
            && CrateMover9000(stacks, mv).Some? && CrateMover9001(stacks, mv).Some?
            && CrateMover9001(stacks, mv).value[mv.to - 1] == stacks[mv.to - 1] + block
            && CrateMover9000(stacks, mv).value[mv.to - 1] == stacks[mv.to - 1] + Reverse(block)
            && forall k :: 0 <= k < |stacks| && k != mv.to - 1 ==>
                 CrateMover9001(stacks, mv).value[k] == CrateMover9000(stacks, mv).value[k]
  {
    OneByOneReverses(stacks, mv.from, mv.to, mv.count);
    if mv.count == 1 {
      var src := stacks[mv.from - 1];
      assert Reverse(src[|src| - 1..]) == src[|src| - 1..];
    }
  }

  /** A single move keeps the number of crates. */
  lemma MoveOneKeepsCrates(stacks: Stacks, from: nat, to: nat)
    requires MoveOne(stacks, from, to).Some?
    ensures Crates(MoveOne(stacks, from, to).value) == Crates(stacks)
  {
    var src := stacks[from - 1];
    var popped := stacks[from - 1 := src[..|src| - 1]];
    CratesUpdate(stacks, from - 1, src[..|src| - 1]);
    CratesUpdate(popped, to - 1, popped[to - 1] + [src[|src| - 1]]);
  }

  lemma {:induction false} OneByOneKeepsCrates(stacks: Stacks, from: nat, to: nat, n: nat)
    requires MoveOneByOne(stacks, from, to, n).Some?
    ensures Crates(MoveOneByOne(stacks, from, to, n).value) == Crates(stacks)
  {
    if n > 0 {
      OneByOneKeepsCrates(stacks, from, to, n - 1);
      MoveOneKeepsCrates(MoveOneByOne(stacks, from, to, n - 1).value, from, to);
    }
  }

  /** Both cranes keep the number of crates. */
  lemma CranesKeepCrates(stacks: Stacks, mv: Move)
    ensures CrateMover9000(stacks, mv).Some? ==> Crates(CrateMover9000(stacks, mv).value) == Crates(stacks)
    ensures CrateMover9001(stacks, mv).Some? ==> Crates(CrateMover9001(stacks, mv).value) == Crates(stacks)
  {
    if CrateMover9000(stacks, mv).Some? {
      OneByOneKeepsCrates(stacks, mv.from, mv.to, mv.count);
    }
    if CrateMover9001(stacks, mv).Some? {
      if mv.count == 1 {
        MoveOneKeepsCrates(stacks, mv.from, mv.to);
      } else {
        var src := stacks[mv.from - 1];
        var rest := stacks[mv.from - 1 := src[..|src| - mv.count]];
        assert src == src[..|src| - mv.count] + src[|src| - mv.count..];
        CratesUpdate(stacks, mv.from - 1, src[..|src| - mv.count]);
        CratesUpdate(rest, mv.to - 1, rest[mv.to - 1] + src[|src| - mv.count..]);
      }
    }
  }

  /** A whole run of moves keeps the number of crates, for either crane. */
  lemma {:induction false} RunKeepsCrates(stacks: Stacks, moves: seq<Move>, part2: bool)
    requires Run(stacks, moves, if part2 then CrateMover9001 else CrateMover9000).Some?
    ensures Crates(Run(stacks, moves, if part2 then CrateMover9001 else CrateMover9000).value) == Crates(stacks)
  {
    if moves != [] {
      var crane := if part2 then CrateMover9001 else CrateMover9000;
      RunKeepsCrates(stacks, moves[..|moves| - 1], part2);
      CranesKeepCrates(Run(stacks, moves[..|moves| - 1], crane).value, moves[|moves| - 1]);
    }
  }

  lemma RunStep(stacks: Stacks, moves: seq<Move>, m: nat, crane: (Stacks, Move) -> Option<Stacks>)
    requires m < |moves|
    ensures Run(stacks, moves[..m + 1], crane) ==
              match Run(stacks, moves[..m], crane)
              case None => None
              case Some(s) => crane(s, moves[m])
  {
    assert moves[..m + 1][..m] == moves[..m];
  }

  lemma {:induction false} RunFailsLater(stacks: Stacks, moves: seq<Move>, m: nat, crane: (Stacks, Move) -> Option<Stacks>)
    requires m <= |moves| && Run(stacks, moves[..m], crane).None?
    ensures Run(stacks, moves, crane).None?
  {
    if m < |moves| {
      assert moves[..|moves| - 1][..m] == moves[..m];
      RunFailsLater(stacks, moves[..|moves| - 1], m, crane);
    } else {
      assert moves[..m] == moves;
    }
  }

  // ---------------------------------------------------------------------------
  // The two parts

  /** One instruction of part 1: pop and push `count` times. */
  method Lift9000(stacks: Stacks, mv: Move) returns (r: Option<Stacks>)
    ensures r == CrateMover9000(stacks, mv)
  {
    var stacks := stacks;
    ghost var before := stacks;
    var i := 0;
    while i < mv.count
      invariant 0 <= i <= mv.count
      invariant MoveOneByOne(before, mv.from, mv.to, i) == Some(stacks)
    {
      if mv.from < 1 || mv.from > |stacks| || stacks[mv.from - 1] == [] {
        OneByOneFailsLater(before, mv.from, mv.to, i + 1, mv.count);
        return None;
      }
      var src := stacks[mv.from - 1];
      var moving := src[|src| - 1];
      stacks := stacks[mv.from - 1 := src[..|src| - 1]];
      if mv.to < 1 || mv.to > |stacks| {
        OneByOneFailsLater(before, mv.from, mv.to, i + 1, mv.count);
        return None;
      }
      stacks := stacks[mv.to - 1 := stacks[mv.to - 1] + [moving]];
      i := i + 1;
    }
    return Some(stacks);
  }

  /** `part1`: for each move, pop and push `count` times, then read the tops. */
  method Part1(input: Input) returns (r: Option<string>)
    ensures r == Answer(input, CrateMover9000)
  {
    var moves := input.instructions;
    var stacks := input.stacks;
    var m := 0;
    while m < |moves|
      invariant 0 <= m <= |moves|
      invariant Run(input.stacks, moves[..m], CrateMover9000) == Some(stacks)
    {
      RunStep(input.stacks, moves, m, CrateMover9000);
      var next := Lift9000(stacks, moves[m]);
      if next.None? {
        RunFailsLater(input.stacks, moves, m + 1, CrateMover9000);
        return None;
      }
      stacks := next.value;
      m := m + 1;
    }
    assert moves[..m] == moves;
    r := Some(Tops(stacks));
  }

  /** One instruction of part 2: a single crate is popped and pushed, a
      larger block is split off and appended whole. */
  method Lift9001(stacks: Stacks, mv: Move) returns (r: Option<Stacks>)
    ensures r == CrateMover9001(stacks, mv)
  {
    if mv.from < 1 || mv.from > |stacks| {
      return None;
    }
    var src := stacks[mv.from - 1];
    if mv.count == 1 {
      if src == [] {
        return None;
      }
      var popped := stacks[mv.from - 1 := src[..|src| - 1]];
      if mv.to < 1 || mv.to > |stacks| {
        return None;
      }
      r := Some(popped[mv.to - 1 := popped[mv.to - 1] + [src[|src| - 1]]]);
    } else {
      if mv.count > |src| {
        return None;
      }
      var rest := stacks[mv.from - 1 := src[..|src| - mv.count]];
      if mv.to < 1 || mv.to > |stacks| {
        return None;
      }
      r := Some(rest[mv.to - 1 := rest[mv.to - 1] + src[|src| - mv.count..]]);
    }
  }

  /** `part2`: for each move, pop and push a single crate, or split the top
      `count` crates off the source and append them to the target. */
  method Part2(input: Input) returns (r: Option<string>)
    ensures r == Answer(input, CrateMover9001)
  {
    var moves := input.instructions;
    var stacks := input.stacks;
    var m := 0;
    while m < |moves|
      invariant 0 <= m <= |moves|
      invariant Run(input.stacks, moves[..m], CrateMover9001) == Some(stacks)
    {
      RunStep(input.stacks, moves, m, CrateMover9001);
      var next := Lift9001(stacks, moves[m]);
      if next.None? {
        RunFailsLater(input.stacks, moves, m + 1, CrateMover9001);
        return None;
      }
      stacks := next.value;
      m := m + 1;
    }
    assert moves[..m] == moves;
    r := Some(Tops(stacks));
  }

  // ---------------------------------------------------------------------------
  // Parsing

  /** `char::is_alphabetic`, on ASCII. */
  predicate IsLetter(c: char)
  {
    'a' <= c <= 'z' || 'A' <= c <= 'Z'
  }

  /** The largest decimal digit on a line; a line without digits panics. */
  function MaxDigit(line: string): (r: Option<nat>)
    ensures r.None? <==> forall k :: 0 <= k < |line| ==> !IsDigit(line[k])
    ensures r.Some? ==> exists k :: 0 <= k < |line| && IsDigit(line[k]) && DigitValue(line[k]) == r.value
    ensures r.Some? ==> forall k :: 0 <= k < |line| && IsDigit(line[k]) ==> DigitValue(line[k]) <= r.value
    ensures r.Some? ==> r.value <= 9
  {
    if line == [] then None
    else
      var c := line[|line| - 1];
      var init := line[..|line| - 1];
      assert forall k :: 0 <= k < |init| ==> init[k] == line[k];
      match MaxDigit(init)
      case None => if IsDigit(c) then Some(DigitValue(c)) else None
      case Some(m) => if IsDigit(c) && DigitValue(c) > m then Some(DigitValue(c)) else Some(m)
  }

  /** A drawing row reaches the character of every one of `columns` stacks. */
  predicate Wide(row: string, columns: nat)
  {
    columns == 0 || 4 * columns - 3 < |row|
  }

  /** The letters found at character `idx` of the rows, bottom row first. */
  function Column(rows: seq<string>, idx: nat): (r: seq<char>)
    requires forall k :: 0 <= k < |rows| ==> idx < |rows[k]|
    ensures |r| <= |rows|
    ensures forall k :: 0 <= k < |r| ==> IsLetter(r[k])
  {
    if rows == [] then []
    else
      var row := rows[|rows| - 1];
      Column(rows[..|rows| - 1], idx) + (if IsLetter(row[idx]) then [row[idx]] else [])
  }

  /** The stacks a drawing describes, from its rows listed bottom-up: stack
      `i` holds the letters at character `1 + 4 * i`; a row too short to
      reach some stack's character panics. */
  function Drawing(rows: seq<string>, columns: nat): (r: Option<Stacks>)
    ensures r.Some? <==> forall k :: 0 <= k < |rows| ==> Wide(rows[k], columns)
    ensures r.Some? ==> |r.value| == columns
    ensures r.Some? ==> forall i, k :: 0 <= i < columns && 0 <= k < |r.value[i]| ==> IsLetter(r.value[i][k])
  {
    if forall k :: 0 <= k < |rows| ==> Wide(rows[k], columns) then
      Some(seq(columns, i requires 0 <= i < columns => Column(rows, 1 + 4 * i)))
    else None
  }

  /** One instruction line: exactly six space-separated words, of which the
      second, fourth and sixth must be `usize`s (the other words are not
      checked). */
  function ParseMove(line: string): (r: Option<Move>)
  {
    var words := Split(line, " ");
    if |words| != 6 then None
    else
      match (ParseU64(words[1]), ParseU64(words[3]), ParseU64(words[5]))
      case (Some(count), Some(from), Some(to)) => Some(Move(count, from, to))
      case _ => None
  }

  /** What `parse` computes: the drawing before the first blank line, whose
      last line numbers the stacks, and one move per line after it. */
  function Parsed(input: string): Option<Input>
  {
    match SplitOnce(input, "\n\n")
    case None => None
    case Some((crates, moves)) =>
      var rows := Lines(crates);
      if rows == [] then None
      else
        match MaxDigit(rows[|rows| - 1])
        case None => None
        case Some(columns) =>
          match (Drawing(Reverse(rows[..|rows| - 1]), columns), AllOrNone(Lines(moves), ParseMove))
          case (Some(stacks), Some(instructions)) => Some(Input(stacks, instructions))
          case _ => None
  }

  lemma ColumnStep(rows: seq<string>, t: nat, idx: nat)
    requires t < |rows| && forall k :: 0 <= k <= t ==> idx < |rows[k]|
    ensures Column(rows[..t + 1], idx) ==
              Column(rows[..t], idx) + (if IsLetter(rows[t][idx]) then [rows[t][idx]] else [])
  {
    assert rows[..t + 1][..t] == rows[..t];
  }

  /** The nested loops of `parse` over the drawing: for each row, bottom-up,
      push the letter of every stack's character onto that stack. */
  method FillStacks(rows: seq<string>, columns: nat) returns (r: Option<Stacks>)
    ensures r == Drawing(rows, columns)
  {
    var stacks: Stacks := [];
    var c := 0;
    while c < columns
      invariant 0 <= c <= columns && |stacks| == c
      invariant forall i :: 0 <= i < c ==> stacks[i] == []
    {
      stacks := stacks + [[]];
      c := c + 1;
    }
    var t := 0;
    while t < |rows|
      invariant 0 <= t <= |rows| && |stacks| == columns
      invariant forall k :: 0 <= k < t ==> Wide(rows[k], columns)
      invariant forall i :: 0 <= i < columns ==> stacks[i] == Column(rows[..t], 1 + 4 * i)
    {
      var row := rows[t];
      var i := 0;
      while i < columns
        invariant 0 <= i <= columns && |stacks| == columns
        invariant forall j :: 0 <= j < i ==> 1 + 4 * j < |row|
        invariant forall j :: 0 <= j < i ==> stacks[j] == Column(rows[..t + 1], 1 + 4 * j)
        invariant forall j :: i <= j < columns ==> stacks[j] == Column(rows[..t], 1 + 4 * j)
      {
        var idx := 1 + 4 * i;
        if idx >= |row| {
          assert !Wide(row, columns);
          return None;
        }
        ColumnStep(rows, t, idx);
        if IsLetter(row[idx]) {
          stacks := stacks[i := stacks[i] + [row[idx]]];
        }
        i := i + 1;
      }
      assert columns > 0 ==> 1 + 4 * (columns - 1) < |row|;
      t := t + 1;
    }
    assert rows[..t] == rows;
    r := Some(stacks);
    assert r.value == seq(columns, i requires 0 <= i < columns => Column(rows, 1 + 4 * i));
  }

  /** A parsed drawing has at most nine stacks, the largest single digit on its
      number line, and holds only letters. */
  lemma ParsedStacks(input: string)
    requires Parsed(input).Some?
    ensures |Parsed(input).value.stacks| <= 9
    ensures var st := Parsed(input).value.stacks;
            forall i, k :: 0 <= i < |st| && 0 <= k < |st[i]| ==> IsLetter(st[i][k])
  {
    var (crates, moves) := SplitOnce(input, "\n\n").value;
    var rows := Lines(crates);
    var columns := MaxDigit(rows[|rows| - 1]).value;
    var drawing := Drawing(Reverse(rows[..|rows| - 1]), columns);
    assert Parsed(input).value.stacks == drawing.value;
  }

  /** The instruction loop of `parse`: each line must be a move. */
  method ParseMoves(lines: seq<string>) returns (r: Option<seq<Move>>)
    ensures r == AllOrNone(lines, ParseMove)
  {
    var instructions: seq<Move> := [];
    var j := 0;
    while j < |lines|
      invariant 0 <= j <= |lines|
      invariant AllOrNone(lines[..j], ParseMove) == Some(instructions)
    {
      var mv := ParseMove(lines[j]);
      if mv.None? {
        AllOrNoneFails(lines, ParseMove, j);
        return None;
      }
      AllOrNoneStep(lines, ParseMove, j, instructions, mv.value);
      instructions := instructions + [mv.value];
      j := j + 1;
    }
    assert lines[..j] == lines;
    return Some(instructions);
  }

  /** `parse`: split off the drawing, count the stacks on its last line,
      fill the stacks bottom-up, then read one move per line. */
  method Parse(input: string) returns (r: Option<Input>)
    ensures r == Parsed(input)
  {
    var split := SplitOnce(input, "\n\n");
    if split.None? {
      return None;
    }
    var (crates, moves) := split.value;
    var rows := Lines(crates);
    if rows == [] {
      return None;
    }
    var columns := MaxDigit(rows[|rows| - 1]);
    if columns.None? {
      return None;
    }
    var stacks := FillStacks(Reverse(rows[..|rows| - 1]), columns.value);
    if stacks.None? {
      return None;
    }
    var instructions := ParseMoves(Lines(moves));
    if instructions.None? {
      return None;
    }
    r := Some(Input(stacks.value, instructions.value));
  }

  /** The text of a move, as the puzzle writes it. */
  function MoveText(mv: Move): string
  {
    "move " + Decimal(mv.count) + " from " + Decimal(mv.from) + " to " + Decimal(mv.to)
  }

  /** The words of a move's text. */
  function MoveWords(mv: Move): seq<string>
  {
    ["move", Decimal(mv.count), "from", Decimal(mv.from), "to", Decimal(mv.to)]
  }

  lemma JoinSixWords(a: string, b: string, c: string, d: string, e: string, f: string)
    ensures Join([a, b, c, d, e, f], " ") == a + " " + b + " " + c + " " + d + " " + e + " " + f
  {
    assert Join([f], " ") == f;
    JoinCons(e, [f], " ");
    assert [e, f] == [e] + [f];
    JoinCons(d, [e, f], " ");
    assert [d, e, f] == [d] + [e, f];
    JoinCons(c, [d, e, f], " ");
    assert [c, d, e, f] == [c] + [d, e, f];
    JoinCons(b, [c, d, e, f], " ");
    assert [b, c, d, e, f] == [b] + [c, d, e, f];
    JoinCons(a, [b, c, d, e, f], " ");
    assert [a, b, c, d, e, f] == [a] + [b, c, d, e, f];
  }

  lemma MoveTextIsJoin(mv: Move)
    ensures Join(MoveWords(mv), " ") == MoveText(mv)
  {
    var dc, df, dt := Decimal(mv.count), Decimal(mv.from), Decimal(mv.to);
    JoinSixWords("move", dc, "from", df, "to", dt);
    assert "move" + " " == "move ";
    assert " " + "from" + " " == " from ";
    assert " " + "to" + " " == " to ";
  }

  lemma SplitMoveText(mv: Move)
    ensures Split(MoveText(mv), " ") == MoveWords(mv)
  {
    var words := MoveWords(mv);
    DecimalHasNoSpace(mv.count);
    DecimalHasNoSpace(mv.from);
    DecimalHasNoSpace(mv.to);
    assert forall k :: 0 <= k < 6 ==> ' ' !in words[k];
    JoinSplit(words, ' ');
    MoveTextIsJoin(mv);
  }

  /** Writing a move as `move c from f to t` and parsing it gives it back. */
  lemma ParseMoveText(mv: Move)
    requires mv.count <= U64_MAX && mv.from <= U64_MAX && mv.to <= U64_MAX
    ensures ParseMove(MoveText(mv)) == Some(mv)
  {
    SplitMoveText(mv);
    ParseDecimal(mv.count);
    ParseDecimal(mv.from);
    ParseDecimal(mv.to);
  }

  /** Lines that are the texts of moves parse back to those moves. */
  lemma ParseMoveTexts(lines: seq<string>, moves: seq<Move>)
    requires |lines| == |moves|
    requires forall k :: 0 <= k < |moves| ==> lines[k] == MoveText(moves[k])
    requires forall k :: 0 <= k < |moves| ==> moves[k].count <= U64_MAX && moves[k].from <= U64_MAX && moves[k].to <= U64_MAX
    ensures AllOrNone(lines, ParseMove) == Some(moves)
  {
    forall k | 0 <= k < |lines| ensures ParseMove(lines[k]) == Some(moves[k]) {
      ParseMoveText(moves[k]);
    }
    AllOrNoneEach(lines, ParseMove, moves);
  }

  // ---------------------------------------------------------------------------
  // The worked example

  function SampleStacks(): Stacks
  {
    ["ZN", "MCD", "P"]
  }

  function SampleMoves(): seq<Move>
  {
    [Move(1, 2, 1), Move(3, 1, 3), Move(2, 2, 1), Move(1, 1, 2)]
  }

  lemma RunSnoc(stacks: Stacks, moves: seq<Move>, mv: Move, crane: (Stacks, Move) -> Option<Stacks>)
    ensures Run(stacks, moves + [mv], crane) ==
              match Run(stacks, moves, crane)
              case None => None
              case Some(s) => crane(s, mv)
  {
    assert (moves + [mv])[..|moves|] == moves;
  }

  /** A move between distinct stacks, through part 1's crane, on concrete stacks. */
  lemma Step9000(stacks: Stacks, mv: Move, expected: Stacks)
    requires IsStack(stacks, mv.from) && IsStack(stacks, mv.to) && mv.from != mv.to
    requires mv.count <= |stacks[mv.from - 1]| && |expected| == |stacks|
    requires var src := stacks[mv.from - 1];
             && expected[mv.from - 1] == src[..|src| - mv.count]
             && expected[mv.to - 1] == stacks[mv.to - 1] + Reverse(src[|src| - mv.count..])
             && forall k :: 0 <= k < |stacks| && k != mv.from - 1 && k != mv.to - 1 ==> expected[k] == stacks[k]
    ensures CrateMover9000(stacks, mv) == Some(expected)
  {
    OneByOneReverses(stacks, mv.from, mv.to, mv.count);
    var r := CrateMover9000(stacks, mv).value;
    assert forall k :: 0 <= k < |stacks| ==> r[k] == expected[k];
    assert r == expected;
  }

  /** A block move between distinct stacks, through part 2's crane, on concrete stacks. */
  lemma Step9001(stacks: Stacks, mv: Move, expected: Stacks)
    requires IsStack(stacks, mv.from) && IsStack(stacks, mv.to) && mv.from != mv.to
    requires mv.count <= |stacks[mv.from - 1]| && |expected| == |stacks|
    requires var src := stacks[mv.from - 1];
             && expected[mv.from - 1] == src[..|src| - mv.count]
             && expected[mv.to - 1] == stacks[mv.to - 1] + src[|src| - mv.count..]
             && forall k :: 0 <= k < |stacks| && k != mv.from - 1 && k != mv.to - 1 ==> expected[k] == stacks[k]
    ensures CrateMover9001(stacks, mv) == Some(expected)
  {
    BlockKeepsOrder(stacks, mv);
    OneByOneReverses(stacks, mv.from, mv.to, mv.count);
    var r := CrateMover9001(stacks, mv).value;
    forall k | 0 <= k < |stacks| ensures r[k] == expected[k] {
      if k != mv.to - 1 {
        assert r[k] == CrateMover9000(stacks, mv).value[k];
      }
    }
    assert r == expected;
  }

  lemma SampleMove0()
    ensures CrateMover9000(SampleStacks(), SampleMoves()[0]) == Some(["ZND", "MC", "P"])
    ensures CrateMover9001(SampleStacks(), SampleMoves()[0]) == Some(["ZND", "MC", "P"])
  {
    var src := "MCD";
    assert src[..2] == "MC" && src[2..] == "D";
    assert "ZN" + "D" == "ZND";
    ReverseOfFew('D', 'x', 'x');
    Step9000(SampleStacks(), SampleMoves()[0], ["ZND", "MC", "P"]);
    Step9001(SampleStacks(), SampleMoves()[0], ["ZND", "MC", "P"]);
  }

  lemma SampleMove1()
    ensures CrateMover9000(["ZND", "MC", "P"], SampleMoves()[1]) == Some(["", "MC", "PDNZ"])
    ensures CrateMover9001(["ZND", "MC", "P"], SampleMoves()[1]) == Some(["", "MC", "PZND"])
  {
    var src := "ZND";
    assert src[..0] == "" && src[0..] == "ZND";
    ReverseOfFew('Z', 'N', 'D');
    assert "P" + "DNZ" == "PDNZ" && "P" + "ZND" == "PZND";
    Step9000(["ZND", "MC", "P"], SampleMoves()[1], ["", "MC", "PDNZ"]);
    Step9001(["ZND", "MC", "P"], SampleMoves()[1], ["", "MC", "PZND"]);
  }

  lemma SampleMove2()
    ensures CrateMover9000(["", "MC", "PDNZ"], SampleMoves()[2]) == Some(["CM", "", "PDNZ"])
    ensures CrateMover9001(["", "MC", "PZND"], SampleMoves()[2]) == Some(["MC", "", "PZND"])
  {
    var src, mv := "MC", Move(2, 2, 1);
    assert mv == SampleMoves()[2];
    assert src[..0] == "" && src[0..] == "MC";
    ReverseOfFew('M', 'C', 'x');
    assert "" + "CM" == "CM" && "" + "MC" == "MC";
    Step9000(["", "MC", "PDNZ"], mv, ["CM", "", "PDNZ"]);
    Step9001(["", "MC", "PZND"], mv, ["MC", "", "PZND"]);
  }

  lemma SampleMove3()
    ensures CrateMover9000(["CM", "", "PDNZ"], SampleMoves()[3]) == Some(["C", "M", "PDNZ"])
    ensures CrateMover9001(["MC", "", "PZND"], SampleMoves()[3]) == Some(["M", "C", "PZND"])
  {
    var a, b := "CM", "MC";
    assert a[..1] == "C" && a[1..] == "M" && b[..1] == "M" && b[1..] == "C";
    ReverseOfFew('M', 'x', 'x');
    ReverseOfFew('C', 'x', 'x');
    assert "" + "M" == "M" && "" + "C" == "C";
    Step9000(["CM", "", "PDNZ"], SampleMoves()[3], ["C", "M", "PDNZ"]);
    Step9001(["MC", "", "PZND"], SampleMoves()[3], ["M", "C", "PZND"]);
  }

  lemma SampleRun(crane: (Stacks, Move) -> Option<Stacks>, s1: Stacks, s2: Stacks, s3: Stacks, s4: Stacks)
    requires crane(SampleStacks(), SampleMoves()[0]) == Some(s1)
    requires crane(s1, SampleMoves()[1]) == Some(s2)
    requires crane(s2, SampleMoves()[2]) == Some(s3)
    requires crane(s3, SampleMoves()[3]) == Some(s4)
    ensures Run(SampleStacks(), SampleMoves(), crane) == Some(s4)
  {
    var mv := SampleMoves();
    RunSnoc(SampleStacks(), [], mv[0], crane);
    RunSnoc(SampleStacks(), mv[..1], mv[1], crane);
    RunSnoc(SampleStacks(), mv[..2], mv[2], crane);
    RunSnoc(SampleStacks(), mv[..3], mv[3], crane);
    assert [] + [mv[0]] == mv[..1] && mv[..1] + [mv[1]] == mv[..2];
    assert mv[..2] + [mv[2]] == mv[..3] && mv[..3] + [mv[3]] == mv;
  }

  lemma TopsOfThree(a: seq<char>, b: seq<char>, c: seq<char>)
    requires a != [] && b != [] && c != []
    ensures Tops([a, b, c]) == [a[|a| - 1], b[|b| - 1], c[|c| - 1]]
  {
    var t := [a, b, c];
    assert t[..2][..1] == [a] && [a][..0] == [] && t[..2] == [a, b];
    assert Tops([a]) == [a[|a| - 1]];
    assert Tops([a, b]) == [a[|a| - 1], b[|b| - 1]];
  }

  /** Part 1's crane leaves C, M and Z on top of the sample stacks. */
  lemma SamplePart1()
    ensures Answer(Input(SampleStacks(), SampleMoves()), CrateMover9000) == Some("CMZ")
  {
    SampleMove0();
    SampleMove1();
    SampleMove2();
    SampleMove3();
    SampleRun(CrateMover9000, ["ZND", "MC", "P"], ["", "MC", "PDNZ"], ["CM", "", "PDNZ"], ["C", "M", "PDNZ"]);
    TopsOfThree("C", "M", "PDNZ");
  }

  /** Part 2's crane leaves M, C and D on top of the sample stacks. */
  lemma SamplePart2()
    ensures Answer(Input(SampleStacks(), SampleMoves()), CrateMover9001) == Some("MCD")
  {
    SampleMove0();
    SampleMove1();
    SampleMove2();
    SampleMove3();
    SampleRun(CrateMover9001, ["ZND", "MC", "P"], ["", "MC", "PZND"], ["MC", "", "PZND"], ["M", "C", "PZND"]);
    TopsOfThree("M", "C", "PZND");
  }

  // The sample parse: the drawing and the moves of the worked example,
  // as lines of text.

  function SampleRows(): seq<string>
  {
    ["    [D]    ", "[N] [C]    ", "[Z] [M] [P]", " 1   2   3 "]
  }

  function SampleMoveLines(): seq<string>
  {
    ["move 1 from 2 to 1", "move 3 from 1 to 3", "move 2 from 2 to 1", "move 1 from 1 to 2"]
  }

  /** The worked example's input: the drawing, a blank line, the moves. */
  function SampleText(): string
  {
    Join(SampleRows(), "\n") + "\n\n" + Join(SampleMoveLines(), "\n")
  }

  lemma ColumnOfThree(a: string, b: string, c: string, idx: nat)
    requires idx < |a| && idx < |b| && idx < |c|
    ensures Column([a, b, c], idx) ==
              (if IsLetter(a[idx]) then [a[idx]] else [])
              + (if IsLetter(b[idx]) then [b[idx]] else [])
              + (if IsLetter(c[idx]) then [c[idx]] else [])
  {
    assert [a, b, c][..2] == [a, b];
    assert [a, b][..1] == [a];
    assert [a][..0] == [];
    assert Column([a], idx) == (if IsLetter(a[idx]) then [a[idx]] else []);
    assert Column([a, b], idx) == Column([a], idx) + (if IsLetter(b[idx]) then [b[idx]] else []);
  }

  lemma SampleDrawingChars(r0: string, r1: string, r2: string)
    requires r0 == "    [D]    " && r1 == "[N] [C]    " && r2 == "[Z] [M] [P]"
    ensures |r0| == 11 && |r1| == 11 && |r2| == 11
    ensures r2[1] == 'Z' && r1[1] == 'N' && r0[1] == ' '
    ensures r2[5] == 'M' && r1[5] == 'C' && r0[5] == 'D'
    ensures r2[9] == 'P' && r1[9] == ' ' && r0[9] == ' '
  {
  }

  /** The drawing's rows, bottom-up, give the example's stacks. */
  lemma SampleDrawing()
    ensures Drawing(Reverse(SampleRows()[..3]), 3) == Some(SampleStacks())
  {
    var rows := SampleRows();
    var r0, r1, r2 := rows[0], rows[1], rows[2];
    assert rows[..3] == [r0, r1, r2];
    ReverseOfFew(r0, r1, r2);
    SampleDrawingChars(r0, r1, r2);
    ColumnOfThree(r2, r1, r0, 1);
    ColumnOfThree(r2, r1, r0, 5);
    ColumnOfThree(r2, r1, r0, 9);
    var d := Drawing([r2, r1, r0], 3).value;
    assert d[0] == "ZN" && d[1] == "MCD" && d[2] == "P";
    assert d == SampleStacks();
  }

  lemma SampleNumberLine(line: string)
    requires line == " 1   2   3 "
    ensures MaxDigit(line) == Some(3)
  {
    assert IsDigit(line[9]) && DigitValue(line[9]) == 3;
    assert forall k :: 0 <= k < |line| && IsDigit(line[k]) ==> DigitValue(line[k]) <= 3;
  }

  /** A move whose three numbers are single digits, as text. */
  lemma SmallMoveText(c: nat, f: nat, t: nat)
    requires c < 10 && f < 10 && t < 10
    ensures MoveText(Move(c, f, t)) == "move " + [DigitChar(c)] + " from " + [DigitChar(f)] + " to " + [DigitChar(t)]
  {
    assert Decimal(c) == [DigitChar(c)] && Decimal(f) == [DigitChar(f)] && Decimal(t) == [DigitChar(t)];
  }

  lemma SampleMoveText0()
    ensures SampleMoveLines()[0] == MoveText(Move(1, 2, 1))
  {
    assert DigitChar(1) == '1' && DigitChar(2) == '2';
    SmallMoveText(1, 2, 1);
  }

  lemma SampleMoveText1()
    ensures SampleMoveLines()[1] == MoveText(Move(3, 1, 3))
  {
    assert DigitChar(1) == '1' && DigitChar(3) == '3';
    SmallMoveText(3, 1, 3);
  }

  lemma SampleMoveText2()
    ensures SampleMoveLines()[2] == MoveText(Move(2, 2, 1))
  {
    assert DigitChar(1) == '1' && DigitChar(2) == '2';
    SmallMoveText(2, 2, 1);
  }

  lemma SampleMoveText3()
    ensures SampleMoveLines()[3] == MoveText(Move(1, 1, 2))
  {
    assert DigitChar(1) == '1' && DigitChar(2) == '2';
    SmallMoveText(1, 1, 2);
  }

  lemma SampleMoveTexts()
    ensures SampleMoveLines()[0] == MoveText(Move(1, 2, 1))
    ensures SampleMoveLines()[1] == MoveText(Move(3, 1, 3))
    ensures SampleMoveLines()[2] == MoveText(Move(2, 2, 1))
    ensures SampleMoveLines()[3] == MoveText(Move(1, 1, 2))
  {
    SampleMoveText0();
    SampleMoveText1();
    SampleMoveText2();
    SampleMoveText3();
  }

  /** The moves' lines parse to the example's moves. */
  lemma SampleMoveParse()
    ensures AllOrNone(SampleMoveLines(), ParseMove) == Some(SampleMoves())
  {
    SampleMoveTexts();
    ParseMoveTexts(SampleMoveLines(), SampleMoves());
  }

  lemma SampleLines()
    ensures Lines(Join(SampleRows(), "\n")) == SampleRows()
    ensures Lines(Join(SampleMoveLines(), "\n")) == SampleMoveLines()
    ensures NoSepInside(Join(SampleRows(), "\n"), "\n\n")
  {
    var rows, moves := SampleRows(), SampleMoveLines();
    assert forall k :: 0 <= k < 4 ==> '\n' !in rows[k] && StripCR(rows[k]) == rows[k] && |rows[k]| >= 1;
    assert forall k :: 0 <= k < 4 ==> '\n' !in moves[k] && StripCR(moves[k]) == moves[k];
    LinesOfJoin(rows);
    LinesOfJoin(moves);
    NoBlankLineInJoin(rows);
  }

  /** The parse test of the worked example: three stacks `ZN`, `MCD`, `P`
      and the four moves. */
  lemma SampleParse()
    ensures Parsed(SampleText()) == Some(Input(SampleStacks(), SampleMoves()))
  {
    var crates, moves := Join(SampleRows(), "\n"), Join(SampleMoveLines(), "\n");
    SampleLines();
    SplitOnceAfterPiece(crates, "\n\n", moves);
    SampleNumberLine(SampleRows()[3]);
    SampleDrawing();
    SampleMoveParse();
  }
}

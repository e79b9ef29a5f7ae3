/** Day 8, "Treetop Tree House": a grid of tree heights; part 1 counts the
    trees visible from outside the grid, part 2 finds the best scenic score
    among them. */
module TreeHouse {
  import opened Text

  /** Tree heights, one row per line of the input. */
  type Grid = seq<seq<nat>>

  /** Every row is as long as the first. */
  predicate Rectangular(g: Grid)
  {
    forall r :: 0 <= r < |g| ==> |g[r]| == |g[0]|
  }

  // ---------------------------------------------------------------------------
  // Parsing

  /** One character as a height: a decimal digit, anything else panics. */
  function CellOf(c: char): (r: Option<nat>)
    ensures r.Some? <==> IsDigit(c)
    ensures r.Some? ==> r.value <= 9 && DigitChar(r.value) == c
  {
    if IsDigit(c) then Some(DigitValue(c)) else None
  }

  /** The lines of the input, trimmed, without the blank ones. */
  function NonBlank(lines: seq<string>): (r: seq<string>)
    ensures |r| <= |lines|
    ensures forall k :: 0 <= k < |r| ==> r[k] != ""
  {
    if lines == [] then []
    else
      var t := Trim(lines[|lines| - 1]);
      NonBlank(lines[..|lines| - 1]) + (if t == "" then [] else [t])
  }

  /** One line as a row of heights. */
  function ParseRow(line: string): Option<seq<nat>>
  {
    AllOrNone(line, CellOf)
  }

  /** `parse`: one row of heights per non-blank line. It fails exactly
      when a non-blank line holds a character that is not a digit;
      otherwise every row is a non-empty row of single digits. */
  function Parse(input: string): (r: Option<Grid>)
    ensures var lines := NonBlank(Lines(input));
            r.None? <==> exists k, j :: 0 <= k < |lines| && 0 <= j < |lines[k]| && !IsDigit(lines[k][j])
    ensures r.Some? ==> |r.value| == |NonBlank(Lines(input))| && Digits(r.value)
  {
    ParseRows(NonBlank(Lines(input)))
  }

  /** Non-empty lines as rows of heights. */
  function ParseRows(lines: seq<string>): (r: Option<Grid>)
    requires forall k :: 0 <= k < |lines| ==> lines[k] != ""
    ensures r.None? <==> exists k, j :: 0 <= k < |lines| && 0 <= j < |lines[k]| && !IsDigit(lines[k][j])
    ensures r.Some? ==> |r.value| == |lines| && Digits(r.value)
  {
    RowsFail(lines);
    RowsDigits(lines);
    AllOrNone(lines, ParseRow)
  }

  /** Heights that are single digits, on non-empty rows. */
  predicate Digits(g: Grid)
  {
    forall r :: 0 <= r < |g| ==> |g[r]| >= 1 && forall c :: 0 <= c < |g[r]| ==> g[r][c] <= 9
  }

  /** The rows fail exactly when some line holds a character that is not a
      digit. */
  lemma RowsFail(lines: seq<string>)
    ensures AllOrNone(lines, ParseRow).None? <==> exists k, j :: 0 <= k < |lines| && 0 <= j < |lines[k]| && !IsDigit(lines[k][j])
  {
    if AllOrNone(lines, ParseRow).None? {
      var k :| 0 <= k < |lines| && ParseRow(lines[k]).None?;
      var j :| 0 <= j < |lines[k]| && CellOf(lines[k][j]).None?;
    } else {
      forall k, j | 0 <= k < |lines| && 0 <= j < |lines[k]| ensures IsDigit(lines[k][j]) {
        assert ParseRow(lines[k]).Some?;
      }
    }
  }

  /** Non-empty lines that parse give non-empty rows of single digits. */
  lemma RowsDigits(lines: seq<string>)
    requires forall k :: 0 <= k < |lines| ==> lines[k] != ""
    ensures AllOrNone(lines, ParseRow).Some? ==> Digits(AllOrNone(lines, ParseRow).value)
  {
    if AllOrNone(lines, ParseRow).Some? {
      var g := AllOrNone(lines, ParseRow).value;
      forall r | 0 <= r < |g| ensures |g[r]| >= 1 && forall c :: 0 <= c < |g[r]| ==> g[r][c] <= 9 {
        assert ParseRow(lines[r]) == Some(g[r]);
        assert forall c :: 0 <= c < |g[r]| ==> CellOf(lines[r][c]) == Some(g[r][c]);
      }
    }
  }

  /** A row of heights written as digits. */
  function RowText(row: seq<nat>): (s: string)
    requires forall c :: 0 <= c < |row| ==> row[c] <= 9
    ensures |s| == |row| && AllDigits(s)
  {
    seq(|row|, c requires 0 <= c < |row| => DigitChar(row[c]))
  }

  function RowTexts(g: Grid): (ls: seq<string>)
    requires Digits(g)
    ensures |ls| == |g|
  {
    seq(|g|, r requires 0 <= r < |g| => RowText(g[r]))
  }

  /** The puzzle input for a grid: one line of digits per row. */
  function GridText(g: Grid): string
    requires Digits(g)
  {
    Join(RowTexts(g), "\n")
  }

  lemma {:induction false} NonBlankOfDigits(ls: seq<string>)
    requires forall k :: 0 <= k < |ls| ==> |ls[k]| >= 1 && AllDigits(ls[k])
    ensures NonBlank(ls) == ls
  {
    if ls != [] {
      var init, last := ls[..|ls| - 1], ls[|ls| - 1];
      forall k | 0 <= k < |init| ensures |init[k]| >= 1 && AllDigits(init[k]) {
        assert init[k] == ls[k];
      }
      NonBlankOfDigits(init);
      TrimDigits(last);
      FrontLast(ls);
      NonBlankSnoc(init, last);
    }
  }

  lemma NonBlankSnoc(init: seq<string>, last: string)
    requires last != "" && Trim(last) == last
    ensures NonBlank(init + [last]) == NonBlank(init) + [last]
  {
    var ls := init + [last];
    assert ls[..|ls| - 1] == init;
  }

  lemma ParseRowText(row: seq<nat>)
    requires forall c :: 0 <= c < |row| ==> row[c] <= 9
    ensures AllOrNone(RowText(row), CellOf) == Some(row)
  {
    var s := RowText(row);
    forall c | 0 <= c < |s| ensures CellOf(s[c]) == Some(row[c]) {
      assert DigitValue(DigitChar(row[c])) == row[c];
    }
    AllOrNoneEach(s, CellOf, row);
  }

  /** Writing a grid of digits as text and parsing it gives the grid back. */
  lemma ParseGridText(g: Grid)
    requires |g| >= 1 && Digits(g)
    ensures Parse(GridText(g)) == Some(g)
  {
    var ls := RowTexts(g);
    forall k | 0 <= k < |ls| ensures '\n' !in ls[k] && StripCR(ls[k]) == ls[k] {
      forall j | 0 <= j < |ls[k]| ensures ls[k][j] != '\n' {
        assert IsDigit(ls[k][j]);
      }
      assert IsDigit(ls[k][|ls[k]| - 1]);
    }
    assert IsDigit(ls[|ls| - 1][0]);
    LinesOfJoin(ls);
    NonBlankOfDigits(ls);
    forall k | 0 <= k < |ls| ensures ParseRow(ls[k]) == Some(g[k]) {
      ParseRowText(g[k]);
    }
    AllOrNoneEach(ls, ParseRow, g);
  }

  // ---------------------------------------------------------------------------
  // Lines of sight

  /** The heights of column `c`, top to bottom. */
  function Column(g: Grid, c: nat): (col: seq<nat>)
    requires Rectangular(g) && |g| >= 1 && c < |g[0]|
    ensures |col| == |g| && forall r :: 0 <= r < |g| ==> col[r] == g[r][c]
  {
    seq(|g|, r requires 0 <= r < |g| => g[r][c])
  }

  /** Every tree of `line` is shorter than `h`. */
  predicate Taller(h: nat, line: seq<nat>)
  {
    forall i :: 0 <= i < |line| ==> line[i] < h
  }

  /** The tree at row `r`, column `c` can be seen from outside the grid: it
      is taller than every tree between it and one of the four edges. */
  predicate Visible(g: Grid, r: nat, c: nat)
    requires Rectangular(g) && r < |g| && c < |g[0]|
  {
    var h := g[r][c];
    var col := Column(g, c);
    Taller(h, col[..r]) || Taller(h, col[r + 1..]) || Taller(h, g[r][..c]) || Taller(h, g[r][c + 1..])
  }

  /** Trees on the edge are always visible: nothing stands between them and
      the outside. */
  lemma EdgeVisible(g: Grid, r: nat, c: nat)
    requires Rectangular(g) && r < |g| && c < |g[0]|
    requires r == 0 || r == |g| - 1 || c == 0 || c == |g[0]| - 1
    ensures Visible(g, r, c)
  {
    var col := Column(g, c);
    if r == 0 {
      assert Taller(g[r][c], col[..r]);
    } else if r == |g| - 1 {
      assert Taller(g[r][c], col[r + 1..]);
    } else if c == 0 {
      assert Taller(g[r][c], g[r][..c]);
    } else {
      assert Taller(g[r][c], g[r][c + 1..]);
    }
  }

  // ---------------------------------------------------------------------------
  // Part 1: counting visible trees

  /** The visible trees in columns `lo` up to `hi` of row `r`. */
  function CountCols(g: Grid, r: nat, lo: nat, hi: int): (n: nat)
    requires Rectangular(g) && r < |g| && hi <= |g[0]|
    ensures n <= if hi <= lo then 0 else hi - lo
    decreases hi
  {
    if hi <= lo then 0
    else CountCols(g, r, lo, hi - 1) + (if Visible(g, r, hi - 1) then 1 else 0)
  }

  /** The visible trees in rows `rlo` up to `rhi` and columns `clo` up to `chi`. */
  function CountRows(g: Grid, rlo: nat, rhi: int, clo: nat, chi: int): nat
    requires Rectangular(g) && |g| >= 1 && rhi <= |g| && chi <= |g[0]|
    decreases rhi
  {
    if rhi <= rlo then 0
    else CountRows(g, rlo, rhi - 1, clo, chi) + CountCols(g, rhi - 1, clo, chi)
  }

  /** All trees of the grid that can be seen from outside it. */
  function VisibleTrees(g: Grid): nat
    requires Rectangular(g) && |g| >= 1
  {
    CountRows(g, 0, |g|, 0, |g[0]|)
  }

  /** The visible trees off the edge, which `part1` examines one by one. */
  function Interior(g: Grid): nat
    requires Rectangular(g) && |g| >= 1
  {
    CountRows(g, 1, |g| - 1, 1, |g[0]| - 1)
  }

  /** `part1` as written: the edge counted as two rows plus two columns, and
      every interior tree found visible. */
  function Part1Total(g: Grid): nat
    requires Rectangular(g) && |g| >= 1 && |g| + |g[0]| >= 2
  {
    2 * |g[0]| + 2 * |g| - 4 + Interior(g)
  }

  /** The inner loop of `part1`: every tree of row `r` off the left and
      right edges adds one to `visible` when it can be seen. */
  method ScanRow(g: Grid, r: nat, visible: nat) returns (total: nat)
    requires Rectangular(g) && r < |g|
    ensures total == visible + CountCols(g, r, 1, |g[0]| - 1)
  {
    var width := |g[0]|;
    total := visible;
    var c := 1;
    while c < width
      invariant 1 <= c <= if width < 1 then 1 else width
      invariant total == visible + CountCols(g, r, 1, if c < width - 1 then c else width - 1)
    {
      if c == width - 1 {
        c := c + 1;
        continue;
      }
      ColsStep(g, r, 1, c);
      if Visible(g, r, c) {
        total := total + 1;
      }
      c := c + 1;
    }
  }

  /** `part1`: start from the edge count, then visit every tree off the edge
      and count those visible. A grid with no rows panics, and one with a
      single row of no trees underflows. */
  method Part1(g: Grid) returns (visible: nat)
    requires Rectangular(g) && |g| >= 1 && |g| + |g[0]| >= 2
    ensures visible == Part1Total(g)
  {
    var width, height := |g[0]|, |g|;
    visible := width + width + height - 2 + height - 2;
    var r := 1;
    while r < height
      invariant 1 <= r <= height
      invariant visible == 2 * width + 2 * height - 4 + CountRows(g, 1, if r < height - 1 then r else height - 1, 1, width - 1)
    {
      if r == height - 1 {
        r := r + 1;
        continue;
      }
      visible := ScanRow(g, r, visible);
      r := r + 1;
    }
  }

  /** Adding one more column to a stretch of a row adds that tree if it is
      visible. */
  lemma ColsStep(g: Grid, r: nat, lo: nat, c: nat)
    requires Rectangular(g) && r < |g| && lo <= c < |g[0]|
    ensures CountCols(g, r, lo, c + 1) == CountCols(g, r, lo, c) + (if Visible(g, r, c) then 1 else 0)
  {
  }

  lemma {:induction false} CountColsSplit(g: Grid, r: nat, lo: nat, mid: nat, hi: int)
    requires Rectangular(g) && r < |g| && lo <= mid && mid <= hi <= |g[0]|
    ensures CountCols(g, r, lo, hi) == CountCols(g, r, lo, mid) + CountCols(g, r, mid, hi)
    decreases hi
  {
    if hi > mid {
      CountColsSplit(g, r, lo, mid, hi - 1);
    }
  }

  lemma {:induction false} CountColsAll(g: Grid, r: nat, lo: nat, hi: int)
    requires Rectangular(g) && r < |g| && lo <= hi <= |g[0]|
    requires forall c :: lo <= c < hi ==> Visible(g, r, c)
    ensures CountCols(g, r, lo, hi) == hi - lo
    decreases hi
  {
    if hi > lo {
      CountColsAll(g, r, lo, hi - 1);
    }
  }

  lemma {:induction false} CountRowsSplit(g: Grid, rlo: nat, mid: nat, rhi: int, clo: nat, chi: int)
    requires Rectangular(g) && |g| >= 1 && rlo <= mid && mid <= rhi <= |g| && chi <= |g[0]|
    ensures CountRows(g, rlo, rhi, clo, chi) == CountRows(g, rlo, mid, clo, chi) + CountRows(g, mid, rhi, clo, chi)
    decreases rhi
  {
    if rhi > mid {
      CountRowsSplit(g, rlo, mid, rhi - 1, clo, chi);
    }
  }

  lemma {:induction false} CountRowsNoCols(g: Grid, rlo: nat, rhi: int, clo: nat, chi: int)
    requires Rectangular(g) && |g| >= 1 && rhi <= |g| && chi <= clo && chi <= |g[0]|
    ensures CountRows(g, rlo, rhi, clo, chi) == 0
    decreases rhi
  {
    if rhi > rlo {
      CountRowsNoCols(g, rlo, rhi - 1, clo, chi);
    }
  }

  /** In a grid one tree wide every tree is on the edge. */
  lemma {:induction false} CountRowsOneCol(g: Grid, rlo: nat, rhi: int)
    requires Rectangular(g) && |g| >= 1 && |g[0]| == 1 && rlo <= rhi <= |g|
    ensures CountRows(g, rlo, rhi, 0, 1) == rhi - rlo
    decreases rhi
  {
    if rhi > rlo {
      CountRowsOneCol(g, rlo, rhi - 1);
      EdgeVisible(g, rhi - 1, 0);
    }
  }

  /** A row at least two trees wide: its two ends plus what lies between. */
  lemma RowWithEnds(g: Grid, r: nat)
    requires Rectangular(g) && r < |g| && |g[0]| >= 2
    ensures CountCols(g, r, 0, |g[0]|) == 2 + CountCols(g, r, 1, |g[0]| - 1)
  {
    var w := |g[0]|;
    EdgeVisible(g, r, 0);
    EdgeVisible(g, r, w - 1);
    CountColsSplit(g, r, 0, 1, w - 1);
  }

  /** Adding one more row to a block of rows adds that row's count. */
  lemma RowsStep(g: Grid, rlo: nat, r: nat, clo: nat, chi: int)
    requires Rectangular(g) && rlo <= r < |g| && chi <= |g[0]|
    ensures CountRows(g, rlo, r + 1, clo, chi) == CountRows(g, rlo, r, clo, chi) + CountCols(g, r, clo, chi)
  {
  }

  lemma {:induction false} RowsWithEnds(g: Grid, rlo: nat, rhi: int)
    requires Rectangular(g) && |g| >= 1 && |g[0]| >= 2 && rlo <= rhi <= |g|
    ensures CountRows(g, rlo, rhi, 0, |g[0]|) == CountRows(g, rlo, rhi, 1, |g[0]| - 1) + 2 * (rhi - rlo)
    decreases rhi
  {
    if rhi > rlo {
      RowsWithEnds(g, rlo, rhi - 1);
      RowWithEnds(g, rhi - 1);
      RowsStep(g, rlo, rhi - 1, 0, |g[0]|);
      RowsStep(g, rlo, rhi - 1, 1, |g[0]| - 1);
    }
  }

  /** The top or bottom row: every tree on it is visible. */
  lemma EdgeRow(g: Grid, r: nat)
    requires Rectangular(g) && r < |g| && (r == 0 || r == |g| - 1)
    ensures CountCols(g, r, 0, |g[0]|) == |g[0]|
  {
    forall c | 0 <= c < |g[0]| ensures Visible(g, r, c) {
      EdgeVisible(g, r, c);
    }
    CountColsAll(g, r, 0, |g[0]|);
  }

  /** On a grid of at least two rows and two columns, `part1`'s count is the
      number of trees visible from outside the grid. */
  lemma Part1CountsVisible(g: Grid)
    requires Rectangular(g) && |g| >= 2 && |g[0]| >= 2
    ensures Part1Total(g) == VisibleTrees(g)
  {
    var n, w := |g|, |g[0]|;
    CountRowsSplit(g, 0, 1, n - 1, 0, w);
    EdgeRow(g, 0);
    EdgeRow(g, n - 1);
    RowsWithEnds(g, 1, n - 1);
  }

  /** The number of trees on the edge of a grid of `height` rows of `width`
      trees. */
  function EdgeTrees(height: nat, width: nat): nat
    requires height >= 1 && width >= 1
  {
    if height == 1 then width
    else if width == 1 then height
    else 2 * width + 2 * height - 4
  }

  /** `part1` with the edge counted once per tree. */
  function Part1Corrected(g: Grid): nat
    requires Rectangular(g) && |g| >= 1 && |g[0]| >= 1
  {
    EdgeTrees(|g|, |g[0]|) + Interior(g)
  }

  /** The corrected count is the number of visible trees on every
      rectangular grid with at least one row and one column. */
  lemma Part1CorrectedCountsVisible(g: Grid)
    requires Rectangular(g) && |g| >= 1 && |g[0]| >= 1
    ensures Part1Corrected(g) == VisibleTrees(g)
  {
    var n, w := |g|, |g[0]|;
    if n == 1 {
      EdgeRow(g, 0);
    } else if w == 1 {
      CountRowsOneCol(g, 0, n);
      CountRowsNoCols(g, 1, n - 1, 1, 0);
    } else {
      Part1CountsVisible(g);
    }
  }

  /** As written, `part1` counts the trees of a single row twice, less two. */
  lemma OneRowOvercounts()
    ensures Part1Total([[1, 2, 3]]) == 4
    ensures VisibleTrees([[1, 2, 3]]) == 3
  {
    Part1CorrectedCountsVisible([[1, 2, 3]]);
  }

  // ---------------------------------------------------------------------------
  // Part 2: scenic scores

  /** How many trees a tree of height `h` sees along `line`, nearest first:
      every tree up to and including the first one at least as tall, or all
      of them when none is. */
  function ViewingDistance(line: seq<nat>, h: nat): (d: nat)
    ensures d <= |line|
    ensures line != [] ==> d >= 1
    ensures forall i :: 0 <= i < d - 1 ==> line[i] < h
    ensures d < |line| ==> line[d - 1] >= h
  {
    if line == [] then 0
    else if line[0] >= h then 1
    else 1 + ViewingDistance(line[1..], h)
  }

  /** The loop of `part2` that counts the trees seen in one direction,
      stopping after the first that blocks the view. */
  method CountView(line: seq<nat>, h: nat) returns (count: nat)
    ensures count == ViewingDistance(line, h)
  {
    count := 0;
    var i := 0;
    while i < |line|
      invariant 0 <= i <= |line| && count == i
      invariant ViewingDistance(line, h) == i + ViewingDistance(line[i..], h)
    {
      count := count + 1;
      if line[i] >= h {
        break;
      }
      assert line[i..][1..] == line[i + 1..];
      i := i + 1;
    }
  }

  /** The four directions of `part2`, each nearest tree first: left, right,
      up and down. */
  function Left(g: Grid, r: nat, c: nat): seq<nat>
    requires Rectangular(g) && r < |g| && c < |g[0]|
  {
    Reverse(g[r][..c])
  }

  function Right(g: Grid, r: nat, c: nat): seq<nat>
    requires Rectangular(g) && r < |g| && c < |g[0]|
  {
    g[r][c + 1..]
  }

  function Up(g: Grid, r: nat, c: nat): seq<nat>
    requires Rectangular(g) && r < |g| && c < |g[0]|
  {
    Reverse(Column(g, c)[..r])
  }

  function Down(g: Grid, r: nat, c: nat): seq<nat>
    requires Rectangular(g) && r < |g| && c < |g[0]|
  {
    Column(g, c)[r + 1..]
  }

  /** The scenic score of a tree: the product of its four viewing distances. */
  function Score(g: Grid, r: nat, c: nat): nat
    requires Rectangular(g) && r < |g| && c < |g[0]|
  {
    var h := g[r][c];
    Product([ViewingDistance(Left(g, r, c), h), ViewingDistance(Right(g, r, c), h),
             ViewingDistance(Up(g, r, c), h), ViewingDistance(Down(g, r, c), h)])
  }

  /** `Iterator::product`: the factors multiplied in order, 1 for none. */
  function Product(factors: seq<nat>): nat
  {
    if factors == [] then 1 else Product(factors[..|factors| - 1]) * factors[|factors| - 1]
  }

  /** A product with a zero factor is zero. */
  lemma {:induction false} ProductZero(factors: seq<nat>, k: nat)
    requires k < |factors| && factors[k] == 0
    ensures Product(factors) == 0
  {
    if k < |factors| - 1 {
      ProductZero(factors[..|factors| - 1], k);
    }
  }

  lemma ProductOfFour(a: nat, b: nat, c: nat, d: nat)
    ensures Product([a, b, c, d]) == a * b * c * d
  {
    assert [a, b, c, d][..3] == [a, b, c];
    assert [a, b, c][..2] == [a, b];
    assert [a, b][..1] == [a];
    assert [a][..0] == [];
    assert Product([a]) == a;
    assert Product([a, b]) == a * b;
    assert Product([a, b, c]) == a * b * c;
  }

  lemma TallerReverse(h: nat, line: seq<nat>)
    ensures Taller(h, Reverse(line)) <==> Taller(h, line)
  {
    ReverseIndex(line);
    if Taller(h, Reverse(line)) {
      forall i | 0 <= i < |line| ensures line[i] < h {
        assert Reverse(line)[|line| - 1 - i] == line[i];
      }
    }
  }

  /** `part2` tests visibility on the directions nearest tree first; that is
      the same test as `part1`'s. */
  lemma VisibleAnyOrder(g: Grid, r: nat, c: nat)
    requires Rectangular(g) && r < |g| && c < |g[0]|
    ensures var h := g[r][c];
            Visible(g, r, c) <==>
              Taller(h, Up(g, r, c)) || Taller(h, Down(g, r, c)) || Taller(h, Left(g, r, c)) || Taller(h, Right(g, r, c))
  {
    TallerReverse(g[r][c], g[r][..c]);
    TallerReverse(g[r][c], Column(g, c)[..r]);
  }

  /** A tree on the edge scores 0: one of its directions holds no tree. */
  lemma EdgeScoresZero(g: Grid, r: nat, c: nat)
    requires Rectangular(g) && r < |g| && c < |g[0]|
    requires r == 0 || r == |g| - 1 || c == 0 || c == |g[0]| - 1
    ensures Score(g, r, c) == 0
  {
    var h := g[r][c];
    var ds := [ViewingDistance(Left(g, r, c), h), ViewingDistance(Right(g, r, c), h),
               ViewingDistance(Up(g, r, c), h), ViewingDistance(Down(g, r, c), h)];
    if r == 0 {
      ProductZero(ds, 2);
    } else if r == |g| - 1 {
      ProductZero(ds, 3);
    } else if c == 0 {
      ProductZero(ds, 0);
    } else {
      ProductZero(ds, 1);
    }
  }

  /** `best` is the highest scenic score of a visible tree, or 0 when no
      visible tree scores above 0. */
  predicate BestScore(g: Grid, best: nat)
    requires Rectangular(g)
  {
    && (forall r, c :: 0 <= r < |g| && 0 <= c < |g[0]| && Visible(g, r, c) ==> Score(g, r, c) <= best)
    && (best == 0 || exists r, c :: 0 <= r < |g| && 0 <= c < |g[0]| && Visible(g, r, c) && Score(g, r, c) == best)
  }

  /** The body of `part2`'s loops for one tree: whether it is visible from
      outside, and if so its scenic score from the four counting loops. */
  method TreeScore(g: Grid, r: nat, c: nat) returns (visible: bool, score: nat)
    requires Rectangular(g) && r < |g| && c < |g[0]|
    ensures visible == Visible(g, r, c)
    ensures visible ==> score == Score(g, r, c)
  {
    var row := g[r];
    var h := row[c];
    var column := Column(g, c);
    var left := Reverse(row[..c]);
    var right := row[c + 1..];
    var up := Reverse(column[..r]);
    var down := column[r + 1..];
    VisibleAnyOrder(g, r, c);
    visible := Taller(h, up) || Taller(h, down) || Taller(h, left) || Taller(h, right);
    score := 0;
    if visible {
      var dl := CountView(left, h);
      var dr := CountView(right, h);
      var du := CountView(up, h);
      var dd := CountView(down, h);
      score := Product([dl, dr, du, dd]);
    }
  }

  /** `best` is `BestScore` over the trees before row `r`, column `c`, in
      reading order. */
  predicate BestSoFar(g: Grid, best: nat, r: nat, c: nat)
    requires Rectangular(g)
  {
    && (forall r', c' :: 0 <= r' < |g| && 0 <= c' < |g[0]| && (r' < r || (r' == r && c' < c)) && Visible(g, r', c')
          ==> Score(g, r', c') <= best)
    && (best == 0 || exists r', c' :: 0 <= r' < |g| && 0 <= c' < |g[0]| && (r' < r || (r' == r && c' < c))
                                     && Visible(g, r', c') && Score(g, r', c') == best)
  }

  lemma BestStep(g: Grid, best: nat, r: nat, c: nat, visible: bool, score: nat)
    requires Rectangular(g) && r < |g| && c < |g[0]| && BestSoFar(g, best, r, c)
    requires visible == Visible(g, r, c) && (visible ==> score == Score(g, r, c))
    ensures BestSoFar(g, if visible && best < score then score else best, r, c + 1)
  {
  }

  lemma BestNextRow(g: Grid, best: nat, r: nat)
    requires Rectangular(g) && r < |g| && BestSoFar(g, best, r, |g[0]|)
    ensures BestSoFar(g, best, r + 1, 0)
  {
    if best != 0 {
      var r', c' :| 0 <= r' < |g| && 0 <= c' < |g[0]| && (r' < r || (r' == r && c' < |g[0]|))
                    && Visible(g, r', c') && Score(g, r', c') == best;
      assert r' < r + 1;
    }
  }

  lemma BestDone(g: Grid, best: nat)
    requires Rectangular(g) && BestSoFar(g, best, |g|, 0)
    ensures BestScore(g, best)
  {
  }

  /** `part2`: visit every tree and keep the largest scenic score of those
      visible from outside. */
  method Part2(g: Grid) returns (best: nat)
    requires Rectangular(g)
    ensures BestScore(g, best)
  {
    best := 0;
    var r := 0;
    while r < |g|
      invariant 0 <= r <= |g| && BestSoFar(g, best, r, 0)
    {
      var c := 0;
      while c < |g[r]|
        invariant 0 <= c <= |g[r]| == |g[0]| && BestSoFar(g, best, r, c)
      {
        var visible, score := TreeScore(g, r, c);
        BestStep(g, best, r, c, visible, score);
        if visible && best < score {
          best := score;
        }
        c := c + 1;
      }
      BestNextRow(g, best, r);
      r := r + 1;
    }
    BestDone(g, best);
  }

  // ---------------------------------------------------------------------------
  // The worked example

  function Sample(): Grid
  {
    [[3, 0, 3, 7, 3],
     [2, 5, 5, 1, 2],
     [6, 5, 3, 3, 2],
     [3, 3, 5, 4, 9],
     [3, 5, 3, 9, 0]]
  }

  /** A tree with a tree at least as tall in each of the four directions. */
  lemma Hidden(g: Grid, r: nat, c: nat, up: nat, down: nat, left: nat, right: nat)
    requires Rectangular(g) && up < r < down < |g| && left < c < right < |g[0]|
    requires var h := g[r][c];
             g[up][c] >= h && g[down][c] >= h && g[r][left] >= h && g[r][right] >= h
    ensures !Visible(g, r, c)
  {
    var col := Column(g, c);
    assert col[..r][up] == g[up][c];
    assert col[r + 1..][down - r - 1] == g[down][c];
    assert g[r][..c][left] == g[r][left];
    assert g[r][c + 1..][right - c - 1] == g[r][right];
  }

  lemma SeenFromTop(g: Grid, r: nat, c: nat)
    requires Rectangular(g) && r < |g| && c < |g[0]|
    requires forall i :: 0 <= i < r ==> g[i][c] < g[r][c]
    ensures Visible(g, r, c)
  {
    assert Taller(g[r][c], Column(g, c)[..r]);
  }

  lemma SeenFromLeft(g: Grid, r: nat, c: nat)
    requires Rectangular(g) && r < |g| && c < |g[0]|
    requires forall j :: 0 <= j < c ==> g[r][j] < g[r][c]
    ensures Visible(g, r, c)
  {
    assert Taller(g[r][c], g[r][..c]);
  }

  lemma SeenFromRight(g: Grid, r: nat, c: nat)
    requires Rectangular(g) && r < |g| && c < |g[0]|
    requires forall j :: c < j < |g[0]| ==> g[r][j] < g[r][c]
    ensures Visible(g, r, c)
  {
    assert Taller(g[r][c], g[r][c + 1..]);
  }

  /** Which of the example's inner trees can be seen from outside. */
  lemma SampleVisibility()
    ensures Visible(Sample(), 1, 1) && Visible(Sample(), 1, 2) && !Visible(Sample(), 1, 3)
    ensures Visible(Sample(), 2, 1) && !Visible(Sample(), 2, 2) && Visible(Sample(), 2, 3)
    ensures !Visible(Sample(), 3, 1) && Visible(Sample(), 3, 2) && !Visible(Sample(), 3, 3)
  {
    var g := Sample();
    SeenFromTop(g, 1, 1);
    SeenFromTop(g, 1, 2);
    Hidden(g, 1, 3, 0, 4, 1, 4);
    SeenFromRight(g, 2, 1);
    Hidden(g, 2, 2, 1, 3, 1, 3);
    SeenFromRight(g, 2, 3);
    Hidden(g, 3, 1, 1, 4, 0, 2);
    SeenFromLeft(g, 3, 2);
    Hidden(g, 3, 3, 0, 4, 2, 4);
  }

  /** The part 1 test: 21 trees are visible. */
  lemma SamplePart1()
    ensures Part1Total(Sample()) == 21
  {
    SampleVisibility();
    InteriorOfExample(Sample());
  }

  /** A five by five grid with the example's inner visibility has five
      visible inner trees. */
  lemma InteriorOfExample(g: Grid)
    requires Rectangular(g) && |g| == 5 && |g[0]| == 5
    requires Visible(g, 1, 1) && Visible(g, 1, 2) && !Visible(g, 1, 3)
    requires Visible(g, 2, 1) && !Visible(g, 2, 2) && Visible(g, 2, 3)
    requires !Visible(g, 3, 1) && Visible(g, 3, 2) && !Visible(g, 3, 3)
    ensures Part1Total(g) == 21
  {
    assert CountCols(g, 1, 1, 4) == 2;
    assert CountCols(g, 2, 1, 4) == 2;
    assert CountCols(g, 3, 1, 4) == 1;
    assert Interior(g) == 5;
  }

  lemma SampleColumns()
    ensures Column(Sample(), 1) == [0, 5, 5, 3, 5]
    ensures Column(Sample(), 2) == [3, 5, 3, 5, 3]
    ensures Column(Sample(), 3) == [7, 1, 3, 4, 9]
  {
  }

  /** The score of the tree at column `c` of `row` and row `r` of `col`,
      computed from its row and its column alone. */
  function LineScore(row: seq<nat>, col: seq<nat>, r: nat, c: nat): nat
    requires c < |row| && r < |col|
  {
    var h := row[c];
    Product([ViewingDistance(Reverse(row[..c]), h), ViewingDistance(row[c + 1..], h),
             ViewingDistance(Reverse(col[..r]), h), ViewingDistance(col[r + 1..], h)])
  }

  lemma ViewingDistanceOfFew(a: nat, b: nat, c: nat, h: nat)
    ensures ViewingDistance([a], h) == 1
    ensures ViewingDistance([a, b], h) == if a >= h then 1 else 2
    ensures ViewingDistance([a, b, c], h) == if a >= h then 1 else if b >= h then 2 else 3
  {
    assert [a, b][1..] == [b] && [a, b, c][1..] == [b, c] && [b, c][1..] == [c];
  }

  lemma ScoreFromLines(g: Grid, r: nat, c: nat)
    requires Rectangular(g) && r < |g| && c < |g[0]|
    ensures Score(g, r, c) == LineScore(g[r], Column(g, c), r, c)
  {
  }

  lemma LineScore11()
    ensures LineScore([2, 5, 5, 1, 2], [0, 5, 5, 3, 5], 1, 1) == 1
  {
    var row: seq<nat>, col: seq<nat> := [2, 5, 5, 1, 2], [0, 5, 5, 3, 5];
    assert row[..1] == [2] && row[2..] == [5, 1, 2];
    assert col[..1] == [0] && col[2..] == [5, 3, 5];
    ReverseOfFew<nat>(2, 0, 0);
    ReverseOfFew<nat>(0, 0, 0);
    ViewingDistanceOfFew(2, 0, 0, 5);
    ViewingDistanceOfFew(5, 1, 2, 5);
    ViewingDistanceOfFew(0, 0, 0, 5);
    ViewingDistanceOfFew(5, 3, 5, 5);
    ProductOfFour(1, 1, 1, 1);
  }

  lemma SampleScore11()
    ensures Score(Sample(), 1, 1) == 1
  {
    SampleColumns();
    ScoreFromLines(Sample(), 1, 1);
    LineScore11();
  }

  lemma LineScore12()
    ensures LineScore([2, 5, 5, 1, 2], [3, 5, 3, 5, 3], 1, 2) == 4
  {
    var row: seq<nat>, col: seq<nat> := [2, 5, 5, 1, 2], [3, 5, 3, 5, 3];
    assert row[..2] == [2, 5] && row[3..] == [1, 2];
    assert col[..1] == [3] && col[2..] == [3, 5, 3];
    ReverseOfFew<nat>(2, 5, 0);
    ReverseOfFew<nat>(3, 0, 0);
    ViewingDistanceOfFew(5, 2, 0, 5);
    ViewingDistanceOfFew(1, 2, 0, 5);
    ViewingDistanceOfFew(3, 0, 0, 5);
    ViewingDistanceOfFew(3, 5, 3, 5);
    ProductOfFour(1, 2, 1, 2);
  }

  lemma SampleScore12()
    ensures Score(Sample(), 1, 2) == 4
  {
    SampleColumns();
    ScoreFromLines(Sample(), 1, 2);
    LineScore12();
  }

  lemma LineScore21()
    ensures LineScore([6, 5, 3, 3, 2], [0, 5, 5, 3, 5], 2, 1) == 6
  {
    var row: seq<nat>, col: seq<nat> := [6, 5, 3, 3, 2], [0, 5, 5, 3, 5];
    assert row[..1] == [6] && row[2..] == [3, 3, 2];
    assert col[..2] == [0, 5] && col[3..] == [3, 5];
    ReverseOfFew<nat>(6, 0, 0);
    ReverseOfFew<nat>(0, 5, 0);
    ViewingDistanceOfFew(6, 0, 0, 5);
    ViewingDistanceOfFew(3, 3, 2, 5);
    ViewingDistanceOfFew(5, 0, 0, 5);
    ViewingDistanceOfFew(3, 5, 0, 5);
    ProductOfFour(1, 3, 1, 2);
  }

  lemma SampleScore21()
    ensures Score(Sample(), 2, 1) == 6
  {
    SampleColumns();
    ScoreFromLines(Sample(), 2, 1);
    LineScore21();
  }

  lemma LineScore23()
    ensures LineScore([6, 5, 3, 3, 2], [7, 1, 3, 4, 9], 2, 3) == 2
  {
    var row: seq<nat>, col: seq<nat> := [6, 5, 3, 3, 2], [7, 1, 3, 4, 9];
    assert row[..3] == [6, 5, 3] && row[4..] == [2];
    assert col[..2] == [7, 1] && col[3..] == [4, 9];
    ReverseOfFew<nat>(6, 5, 3);
    ReverseOfFew<nat>(7, 1, 0);
    ViewingDistanceOfFew(3, 5, 6, 3);
    ViewingDistanceOfFew(2, 0, 0, 3);
    ViewingDistanceOfFew(1, 7, 0, 3);
    ViewingDistanceOfFew(4, 9, 0, 3);
    ProductOfFour(1, 1, 2, 1);
  }

  lemma SampleScore23()
    ensures Score(Sample(), 2, 3) == 2
  {
    SampleColumns();
    ScoreFromLines(Sample(), 2, 3);
    LineScore23();
  }

  lemma LineScore32()
    ensures LineScore([3, 3, 5, 4, 9], [3, 5, 3, 5, 3], 3, 2) == 8
  {
    var row: seq<nat>, col: seq<nat> := [3, 3, 5, 4, 9], [3, 5, 3, 5, 3];
    assert row[..2] == [3, 3] && row[3..] == [4, 9];
    assert col[..3] == [3, 5, 3] && col[4..] == [3];
    ReverseOfFew<nat>(3, 3, 0);
    ReverseOfFew<nat>(3, 5, 3);
    ViewingDistanceOfFew(3, 3, 0, 5);
    ViewingDistanceOfFew(4, 9, 0, 5);
    ViewingDistanceOfFew(3, 5, 3, 5);
    ViewingDistanceOfFew(3, 0, 0, 5);
    ProductOfFour(2, 2, 2, 1);
  }

  /** The best tree of the example: it sees two trees left, right and up and
      one down. */
  lemma SampleScore32()
    ensures Score(Sample(), 3, 2) == 8
  {
    SampleColumns();
    ScoreFromLines(Sample(), 3, 2);
    LineScore32();
  }

  /** Every visible tree of the example scores at most 8. */
  lemma SampleScoreAtMost8(r: nat, c: nat)
    requires r < 5 && c < 5
    ensures Visible(Sample(), r, c) ==> Score(Sample(), r, c) <= 8
  {
    var g := Sample();
    if r == 0 || r == 4 || c == 0 || c == 4 {
      EdgeScoresZero(g, r, c);
    } else if r == 1 {
      if c == 1 { SampleScore11(); }
      else if c == 2 { SampleScore12(); }
      else { SampleVisibility(); }
    } else if r == 2 {
      if c == 1 { SampleScore21(); }
      else if c == 2 { SampleVisibility(); }
      else { SampleScore23(); }
    } else {
      if c == 2 { SampleScore32(); }
      else { SampleVisibility(); }
    }
  }

  /** A grid has one best score: that of any visible tree whose score no
      visible tree exceeds. */
  lemma BestScoreIs(g: Grid, best: nat, r: nat, c: nat, bound: nat)
    requires Rectangular(g) && r < |g| && c < |g[0]| && Visible(g, r, c) && Score(g, r, c) == bound
    requires forall r', c' :: 0 <= r' < |g| && 0 <= c' < |g[0]| ==> (Visible(g, r', c') ==> Score(g, r', c') <= bound)
    requires BestScore(g, best)
    ensures best == bound
  {
    if best != 0 {
      var r', c' :| 0 <= r' < |g| && 0 <= c' < |g[0]| && Visible(g, r', c') && Score(g, r', c') == best;
    }
  }

  lemma SampleScoresAtMost8(g: Grid)
    requires g == Sample()
    ensures forall r, c :: 0 <= r < |g| && 0 <= c < |g[0]| ==> (Visible(g, r, c) ==> Score(g, r, c) <= 8)
  {
    forall r, c | 0 <= r < |g| && 0 <= c < |g[0]| ensures Visible(g, r, c) ==> Score(g, r, c) <= 8 {
      SampleScoreAtMost8(r, c);
    }
  }

  /** The part 2 test: the best scenic score of the example is 8. */
  lemma SamplePart2()
    ensures forall best: nat :: BestScore(Sample(), best) ==> best == 8
  {
    var g := Sample();
    SeenFromLeft(g, 3, 2);
    SampleScore32();
    SampleScoresAtMost8(g);
    forall best: nat | BestScore(g, best) ensures best == 8 {
      BestScoreIs(g, best, 3, 2, 8);
    }
  }

  lemma SampleRowTexts()
    ensures RowTexts(Sample()) == ["30373", "25512", "65332", "33549", "35390"]
  {
    var ls := RowTexts(Sample());
    assert DigitChar(0) == '0' && DigitChar(1) == '1' && DigitChar(2) == '2' && DigitChar(3) == '3' && DigitChar(4) == '4';
    assert DigitChar(5) == '5' && DigitChar(6) == '6' && DigitChar(7) == '7' && DigitChar(9) == '9';
    assert ls[0] == "30373" && ls[1] == "25512" && ls[2] == "65332" && ls[3] == "33549" && ls[4] == "35390";
  }

  lemma SampleGridText()
    ensures GridText(Sample()) == "30373" + "\n" + "25512" + "\n" + "65332" + "\n" + "33549" + "\n" + "35390"
  {
    SampleRowTexts();
    JoinFive("30373", "25512", "65332", "33549", "35390", "\n");
  }

  /** The parse test: the example's five lines of digits. */
  lemma SampleParse(input: string)
    requires input == "30373\n25512\n65332\n33549\n35390"
    ensures Parse(input) == Some(Sample())
  {
    SampleDigits();
    SampleGridText();
    SampleInput(input);
    ParseGridText(Sample());
  }

  lemma SampleDigits()
    ensures Digits(Sample())
  {
  }

  lemma SampleInput(input: string)
    requires input == "30373\n25512\n65332\n33549\n35390"
    ensures input == "30373" + "\n" + "25512" + "\n" + "65332" + "\n" + "33549" + "\n" + "35390"
  {
  }

  lemma JoinFive(a: string, b: string, c: string, d: string, e: string, sep: string)
    ensures Join([a, b, c, d, e], sep) == a + sep + b + sep + c + sep + d + sep + e
  {
    JoinCons(d, [e], sep);
    assert [d, e] == [d] + [e];
    JoinCons(c, [d, e], sep);
    assert [c, d, e] == [c] + [d, e];
    JoinCons(b, [c, d, e], sep);
    assert [b, c, d, e] == [b] + [c, d, e];
    JoinCons(a, [b, c, d, e], sep);
    assert [a, b, c, d, e] == [a] + [b, c, d, e];
  }
}

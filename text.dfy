// Shared helpers: the observable behaviour of the few Rust `str`, `u64` and
// `itertools` operations the puzzle solvers rely on, over ASCII text.

module Text {

  datatype Option<T> = None | Some(value: T)

  /** Largest value of a Rust `u64` (and of a 64-bit `usize`). */
  const U64_MAX: nat := 0xFFFF_FFFF_FFFF_FFFF

  // ---------------------------------------------------------------------------
  // Searching and splitting (`str::find`, `str::split`, `str::split_once`)

  predicate OccursAt(s: string, pat: string, i: nat)
  {
    i + |pat| <= |s| && s[i..i + |pat|] == pat
  }

  /** The first index at or after `from` where `pat` occurs in `s`. */
  function FindFrom(s: string, pat: string, from: nat): (r: Option<nat>)
    decreases |s| - from
    ensures r.Some? ==> from <= r.value && OccursAt(s, pat, r.value)
    ensures r.Some? ==> forall j :: from <= j < r.value ==> !OccursAt(s, pat, j)
    ensures r.None? ==> forall j :: from <= j ==> !OccursAt(s, pat, j)
  {
    if from + |pat| > |s| then None
    else if s[from..from + |pat|] == pat then Some(from)
    else FindFrom(s, pat, from + 1)
  }

  /** The first occurrence of `pat` in `s` (Rust `str::find`). */
  function Find(s: string, pat: string): (r: Option<nat>)
    ensures r.Some? ==> OccursAt(s, pat, r.value)
    ensures r.Some? ==> forall j :: 0 <= j < r.value ==> !OccursAt(s, pat, j)
    ensures r.None? ==> forall j :: 0 <= j ==> !OccursAt(s, pat, j)
  {
    FindFrom(s, pat, 0)
  }

  /** Rust `str::split` with a non-empty pattern: the pieces between
      non-overlapping occurrences, scanning left to right. */
  function Split(s: string, sep: string): (parts: seq<string>)
    requires |sep| > 0
    ensures |parts| >= 1
    decreases |s|
  {
    match Find(s, sep)
    case None => [s]
    case Some(i) => [s[..i]] + Split(s[i + |sep|..], sep)
  }

  function Join(parts: seq<string>, sep: string): string
  {
    if |parts| == 0 then ""
    else if |parts| == 1 then parts[0]
    else parts[0] + sep + Join(parts[1..], sep)
  }

  /** Splitting loses nothing: joining the pieces with the separator gives the input back. */
  lemma {:induction false} SplitJoin(s: string, sep: string)
    requires |sep| > 0
    ensures Join(Split(s, sep), sep) == s
    decreases |s|
  {
    var f := Find(s, sep);
    if f.Some? {
      var i := f.value;
      var rest := s[i + |sep|..];
      SplitAt(s, sep, i);
      SplitAround(s, sep, i);
      SplitJoin(rest, sep);
      JoinCons(s[..i], Split(rest, sep), sep);
      ConcatAssoc(s[..i], sep, rest);
    }
  }

  lemma SplitAt(s: string, sep: string, i: nat)
    requires |sep| > 0 && Find(s, sep) == Some(i)
    ensures Split(s, sep) == [s[..i]] + Split(s[i + |sep|..], sep)
  {
    assert i + |sep| <= |s|;
  }

  /** The text around an occurrence of `sep`. */
  lemma SplitAround(s: string, sep: string, i: nat)
    requires OccursAt(s, sep, i)
    ensures s == s[..i] + (sep + s[i + |sep|..])
  {
    var rest := s[i + |sep|..];
    assert s[i..] == sep + rest by {
      assert s[i..i + |sep|] == sep;
    }
    assert s == s[..i] + s[i..];
  }

  lemma ConcatAssoc(a: string, b: string, c: string)
    ensures a + b + c == a + (b + c)
  {
  }

  lemma JoinCons(head: string, tail: seq<string>, sep: string)
    requires |tail| >= 1
    ensures Join([head] + tail, sep) == head + sep + Join(tail, sep)
  {
    assert ([head] + tail)[1..] == tail;
  }

  /** No piece of a split by a one-character separator contains that character. */
  lemma {:induction false} SplitPiecesFree(s: string, c: char)
    ensures forall k :: 0 <= k < |Split(s, [c])| ==> c !in Split(s, [c])[k]
    decreases |s|
  {
    match Find(s, [c])
    case None =>
      forall j | 0 <= j < |s| ensures s[j] != c {
        assert !OccursAt(s, [c], j);
        assert s[j..j + 1] == [s[j]];
      }
    case Some(i) =>
      SplitPiecesFree(s[i + 1..], c);
      forall j | 0 <= j < i ensures s[j] != c {
        assert !OccursAt(s, [c], j);
        assert s[j..j + 1] == [s[j]];
      }
  }

  /** Rust `str::split_once`: the text before and after the first occurrence. */
  function SplitOnce(s: string, sep: string): (r: Option<(string, string)>)
    ensures r.Some? ==> s == r.value.0 + sep + r.value.1
    ensures r.Some? ==> forall j :: 0 <= j < |r.value.0| ==> !OccursAt(s, sep, j)
    ensures r.None? <==> forall j :: 0 <= j ==> !OccursAt(s, sep, j)
  {
    match Find(s, sep)
    case None => None
    case Some(i) =>
      assert s == s[..i] + sep + s[i + |sep|..] by {
        assert s[i..i + |sep|] == sep;
      }
      Some((s[..i], s[i + |sep|..]))
  }

  /** In `prefix + [c] + rest`, where `prefix` lacks `c`, the first `c` ends `prefix`. */
  lemma {:induction false} FindAfterPrefix(prefix: string, c: char, rest: string)
    requires c !in prefix
    ensures Find(prefix + [c] + rest, [c]) == Some(|prefix|)
  {
    var s := prefix + [c] + rest;
    assert s[|prefix|..|prefix| + 1] == [c];
    assert OccursAt(s, [c], |prefix|);
    forall j | 0 <= j < |prefix| ensures !OccursAt(s, [c], j) {
      assert s[j..j + 1] == [prefix[j]];
    }
  }

  lemma SplitOnceAfterPrefix(prefix: string, c: char, rest: string)
    requires c !in prefix
    ensures SplitOnce(prefix + [c] + rest, [c]) == Some((prefix, rest))
  {
    FindAfterPrefix(prefix, c, rest);
    var s := prefix + [c] + rest;
    assert s[..|prefix|] == prefix;
    assert s[|prefix| + 1..] == rest;
  }

  /** Splitting text joined by a character that no piece contains gives the pieces back. */
  lemma {:induction false} JoinSplit(parts: seq<string>, c: char)
    requires |parts| >= 1
    requires forall k :: 0 <= k < |parts| ==> c !in parts[k]
    ensures Split(Join(parts, [c]), [c]) == parts
  {
    if |parts| == 1 {
      var s := parts[0];
      forall j | 0 <= j ensures !OccursAt(s, [c], j) {
        if j < |s| { assert s[j..j + 1] == [s[j]]; }
      }
    } else {
      var rest := Join(parts[1..], [c]);
      JoinSplit(parts[1..], c);
      FindAfterPrefix(parts[0], c, rest);
      var s := parts[0] + [c] + rest;
      assert Join(parts, [c]) == s;
      assert s[..|parts[0]|] == parts[0];
      assert s[|parts[0]| + 1..] == rest;
      assert parts == [parts[0]] + parts[1..];
    }
  }

  /** `sep` does not begin anywhere inside `p`, even running on into a `sep`
      that follows it. */
  predicate NoSepInside(p: string, sep: string)
  {
    forall j :: 0 <= j < |p| ==> !OccursAt(p + sep, sep, j)
  }

  lemma FindAfterPiece(p: string, sep: string, rest: string)
    requires |sep| > 0 && NoSepInside(p, sep)
    ensures Find(p + sep + rest, sep) == Some(|p|)
  {
    var s := p + sep + rest;
    assert s[|p|..|p| + |sep|] == sep;
    assert OccursAt(s, sep, |p|);
    forall j | 0 <= j < |p| ensures !OccursAt(s, sep, j) {
      assert !OccursAt(p + sep, sep, j);
      assert s[j..j + |sep|] == (p + sep)[j..j + |sep|];
    }
  }

  /** Splitting text joined by a separator that begins inside no piece gives
      the pieces back. */
  lemma {:induction false} JoinSplitSep(parts: seq<string>, sep: string)
    requires |sep| > 0 && |parts| >= 1
    requires forall k :: 0 <= k < |parts| ==> NoSepInside(parts[k], sep)
    ensures Split(Join(parts, sep), sep) == parts
  {
    if |parts| == 1 {
      var p := parts[0];
      forall j | 0 <= j ensures !OccursAt(p, sep, j) {
        if j + |sep| <= |p| {
          assert !OccursAt(p + sep, sep, j);
          assert (p + sep)[j..j + |sep|] == p[j..j + |sep|];
        }
      }
    } else {
      var p := parts[0];
      var rest := Join(parts[1..], sep);
      JoinSplitSep(parts[1..], sep);
      FindAfterPiece(p, sep, rest);
      var s := p + sep + rest;
      assert Join(parts, sep) == s;
      assert s[..|p|] == p;
      assert s[|p| + |sep|..] == rest;
      assert parts == [p] + parts[1..];
    }
  }

  /** Splitting once at a separator that begins inside no part of the first piece. */
  lemma SplitOnceAfterPiece(p: string, sep: string, rest: string)
    requires |sep| > 0 && NoSepInside(p, sep)
    ensures SplitOnce(p + sep + rest, sep) == Some((p, rest))
  {
    FindAfterPiece(p, sep, rest);
    var s := p + sep + rest;
    assert s[..|p|] == p;
    assert s[|p| + |sep|..] == rest;
  }

  /** Non-empty lines without line breaks, joined by '\n', neither start nor
      end with a newline and never hold two newlines in a row. */
  lemma {:induction false} JoinedLines(ls: seq<string>)
    requires |ls| >= 1
    requires forall k :: 0 <= k < |ls| ==> |ls[k]| >= 1 && '\n' !in ls[k]
    ensures var g := Join(ls, "\n");
            && |g| >= 1 && g[0] != '\n' && g[|g| - 1] != '\n'
            && forall j :: 0 <= j < |g| - 1 && g[j] == '\n' ==> g[j + 1] != '\n'
  {
    if |ls| > 1 {
      var d := ls[0];
      var t := Join(ls[1..], "\n");
      JoinedLines(ls[1..]);
      var g := Join(ls, "\n");
      assert g == d + "\n" + t;
      assert d[0] in d;
      assert d[|d| - 1] in d;
      forall j | 0 <= j < |g| - 1 ensures g[j] == '\n' ==> g[j + 1] != '\n' {
        if j < |d| {
          assert g[j] == d[j];
          assert d[j] in d;
        } else if j > |d| {
          assert g[j] == t[j - |d| - 1] && g[j + 1] == t[j - |d|];
        }
      }
    } else {
      assert ls[0][0] in ls[0];
      assert ls[0][|ls[0]| - 1] in ls[0];
    }
  }

  /** Such lines, joined by '\n', hold no blank line. */
  lemma NoBlankLineInJoin(ls: seq<string>)
    requires |ls| >= 1
    requires forall k :: 0 <= k < |ls| ==> |ls[k]| >= 1 && '\n' !in ls[k]
    ensures NoSepInside(Join(ls, "\n"), "\n\n")
  {
    JoinedLines(ls);
    var g := Join(ls, "\n");
    forall j | 0 <= j < |g| ensures !OccursAt(g + "\n\n", "\n\n", j) {
      if j < |g| - 1 {
        assert (g + "\n\n")[j..j + 2] == [g[j], g[j + 1]];
      } else {
        assert (g + "\n\n")[j..j + 2] == [g[j], '\n'];
      }
    }
  }

  // ---------------------------------------------------------------------------
  // Lines and whitespace (`str::lines`, `str::trim`)

  function StripCR(line: string): string
  {
    if |line| > 0 && line[|line| - 1] == '\r' then line[..|line| - 1] else line
  }

  /** Rust `str::lines`: split at '\n', drop the empty piece after a final
      newline, and remove a '\r' that precedes a '\n'. */
  function Lines(s: string): (ls: seq<string>)
    ensures s == "" ==> ls == []
    ensures forall k :: 0 <= k < |ls| ==> '\n' !in ls[k]
  {
    SplitPiecesFree(s, '\n');
    LinesOfPieces(Split(s, "\n"))
  }

  /** The lines made of the pieces between newlines. */
  function LinesOfPieces(parts: seq<string>): (ls: seq<string>)
    requires |parts| >= 1
    ensures |ls| <= |parts|
    ensures parts[|parts| - 1] != "" ==> |ls| == |parts|
    ensures parts == [""] ==> ls == []
    ensures forall k :: 0 <= k < |ls| ==> ls[k] == if k < |parts| - 1 then StripCR(parts[k]) else parts[k]
  {
    var kept := if parts[|parts| - 1] == "" then parts[..|parts| - 1] else parts;
    seq(|kept|, k requires 0 <= k < |kept| =>
      if k < |parts| - 1 then StripCR(kept[k]) else kept[k])
  }

  lemma LinesOfCleanPieces(ls: seq<string>)
    requires |ls| >= 1 && ls[|ls| - 1] != ""
    requires forall k :: 0 <= k < |ls| ==> StripCR(ls[k]) == ls[k]
    ensures LinesOfPieces(ls) == ls
  {
  }

  /** Lines without line breaks, the last one non-empty, joined by '\n',
      split back into the same lines. */
  lemma LinesOfJoin(ls: seq<string>)
    requires |ls| >= 1 && ls[|ls| - 1] != ""
    requires forall k :: 0 <= k < |ls| ==> '\n' !in ls[k] && StripCR(ls[k]) == ls[k]
    ensures Lines(Join(ls, "\n")) == ls
  {
    JoinSplit(ls, '\n');
    LinesOfCleanPieces(ls);
  }

  /** ASCII characters Rust's `char::is_whitespace` accepts. */
  predicate IsWhitespace(c: char)
  {
    c == ' ' || c == '\t' || c == '\n' || c == '\r' || c as int == 11 || c as int == 12
  }

  function TrimStart(s: string): (r: string)
    ensures |r| <= |s| && r == s[|s| - |r|..]
    ensures forall k :: 0 <= k < |s| - |r| ==> IsWhitespace(s[k])
    ensures r != [] ==> !IsWhitespace(r[0])
  {
    if |s| > 0 && IsWhitespace(s[0]) then TrimStart(s[1..]) else s
  }

  function TrimEnd(s: string): (r: string)
    ensures |r| <= |s| && r == s[..|r|]
    ensures forall k :: |r| <= k < |s| ==> IsWhitespace(s[k])
    ensures r != [] ==> !IsWhitespace(r[|r| - 1])
  {
    if |s| > 0 && IsWhitespace(s[|s| - 1]) then TrimEnd(s[..|s| - 1]) else s
  }

  /** Rust `str::trim`: the input without leading and trailing whitespace. */
  function Trim(s: string): (r: string)
    ensures exists a, b :: 0 <= a <= b <= |s| && r == s[a..b]
                        && (forall k :: 0 <= k < a ==> IsWhitespace(s[k]))
                        && (forall k :: b <= k < |s| ==> IsWhitespace(s[k]))
    ensures r != [] ==> !IsWhitespace(r[0]) && !IsWhitespace(r[|r| - 1])
  {
    var t := TrimStart(s);
    var r := TrimEnd(t);
    assert r == s[|s| - |t|..|s| - |t| + |r|];
    r
  }

  // ---------------------------------------------------------------------------
  // Decimal numbers (`str::parse::<u64>`)

  predicate IsDigit(c: char)
  {
    '0' <= c <= '9'
  }

  function DigitValue(c: char): nat
    requires IsDigit(c)
  {
    (c as int - '0' as int) as nat
  }

  predicate AllDigits(s: string)
  {
    forall k :: 0 <= k < |s| ==> IsDigit(s[k])
  }

  /** A run of digits has no surrounding whitespace to trim. */
  lemma TrimDigits(s: string)
    requires |s| >= 1 && AllDigits(s)
    ensures Trim(s) == s
  {
    assert !IsWhitespace(s[0]);
    assert TrimStart(s) == s;
    assert !IsWhitespace(s[|s| - 1]);
  }

  /** The number a string of decimal digits denotes, most significant first. */
  function DigitsValue(s: string): nat
    requires AllDigits(s)
  {
    if s == [] then 0 else DigitsValue(s[..|s| - 1]) * 10 + DigitValue(s[|s| - 1])
  }

  /** The text after an optional leading '+'. */
  function Unsigned(s: string): string
  {
    if |s| > 0 && s[0] == '+' then s[1..] else s
  }

  /** Rust `u64::from_str`: an optional '+', then one or more decimal digits
      whose value fits in 64 bits; anything else is an error. */
  function ParseU64(s: string): (r: Option<nat>)
    ensures r.Some? ==> r.value <= U64_MAX
    ensures r.Some? ==> |Unsigned(s)| > 0 && AllDigits(Unsigned(s))
  {
    var digits := Unsigned(s);
    if |digits| == 0 || !AllDigits(digits) then None
    else if DigitsValue(digits) <= U64_MAX then Some(DigitsValue(digits))
    else None
  }

  function DigitChar(d: nat): (c: char)
    requires d < 10
    ensures IsDigit(c) && DigitValue(c) == d
  {
    ('0' as int + d) as char
  }

  /** The shortest decimal rendering of `n`. */
  function Decimal(n: nat): (s: string)
    ensures |s| >= 1 && AllDigits(s)
  {
    if n < 10 then [DigitChar(n)] else Decimal(n / 10) + [DigitChar(n % 10)]
  }

  lemma {:induction false} DecimalValue(n: nat)
    ensures DigitsValue(Decimal(n)) == n
  {
    if n >= 10 {
      DecimalValue(n / 10);
      var s := Decimal(n);
      assert s[..|s| - 1] == Decimal(n / 10);
    }
  }

  /** A decimal rendering has no space in it. */
  lemma DecimalHasNoSpace(n: nat)
    ensures ' ' !in Decimal(n)
  {
    var d := Decimal(n);
    forall k | 0 <= k < |d| ensures d[k] != ' ' {
      assert IsDigit(d[k]);
    }
  }

  /** Rendering a `u64` in decimal and parsing it back gives the same number. */
  lemma ParseDecimal(n: nat)
    requires n <= U64_MAX
    ensures ParseU64(Decimal(n)) == Some(n)
  {
    DecimalValue(n);
    assert Decimal(n)[0] != '+';
  }

  /** Apply a fallible step to every element, failing as soon as one fails
      (a loop of `expect`s, or `collect::<Option<Vec<_>>>`). */
  function AllOrNone<A, B>(xs: seq<A>, f: A -> Option<B>): (r: Option<seq<B>>)
    ensures r.Some? <==> forall k :: 0 <= k < |xs| ==> f(xs[k]).Some?
    ensures r.Some? ==> |r.value| == |xs|
    ensures r.Some? ==> forall k :: 0 <= k < |xs| ==> f(xs[k]) == Some(r.value[k])
  {
    if xs == [] then Some([])
    else
      match (AllOrNone(xs[..|xs| - 1], f), f(xs[|xs| - 1]))
      case (Some(init), Some(y)) => Some(init + [y])
      case _ => None
  }

  /** When the step succeeds on every element, the results are its values. */
  lemma AllOrNoneEach<A, B>(xs: seq<A>, f: A -> Option<B>, ys: seq<B>)
    requires |xs| == |ys| && forall k :: 0 <= k < |xs| ==> f(xs[k]) == Some(ys[k])
    ensures AllOrNone(xs, f) == Some(ys)
  {
    var r := AllOrNone(xs, f);
    assert r.Some?;
    forall k | 0 <= k < |xs| ensures r.value[k] == ys[k] {
      assert f(xs[k]) == Some(r.value[k]);
    }
    assert r.value == ys;
  }

  /** One failing element fails the whole sequence. */
  lemma AllOrNoneFails<A, B>(xs: seq<A>, f: A -> Option<B>, j: nat)
    requires j < |xs| && f(xs[j]).None?
    ensures AllOrNone(xs, f).None?
  {
  }

  /** One more successful step extends the results by its value. */
  lemma AllOrNoneStep<A, B>(xs: seq<A>, f: A -> Option<B>, j: nat, ys: seq<B>, y: B)
    requires j < |xs| && AllOrNone(xs[..j], f) == Some(ys) && f(xs[j]) == Some(y)
    ensures AllOrNone(xs[..j + 1], f) == Some(ys + [y])
  {
    var prefix := xs[..j + 1];
    forall k | 0 <= k < |prefix| ensures f(prefix[k]) == Some((ys + [y])[k]) {
      if k < j {
        assert prefix[k] == xs[..j][k];
      }
    }
    AllOrNoneEach(prefix, f, ys + [y]);
  }

  // ---------------------------------------------------------------------------
  // Reversal

  /** The elements of `s`, last first. */
  function Reverse<T>(s: seq<T>): (r: seq<T>)
    ensures |r| == |s|
  {
    if s == [] then [] else Reverse(s[1..]) + [s[0]]
  }

  /** A non-empty sequence is its front followed by its last element. */
  lemma FrontLast<T>(s: seq<T>)
    requires s != []
    ensures s[..|s| - 1] + [s[|s| - 1]] == s
  {
  }

  lemma {:induction false} ReverseIndex<T>(s: seq<T>)
    ensures forall i :: 0 <= i < |s| ==> Reverse(s)[i] == s[|s| - 1 - i]
  {
    if s != [] {
      ReverseIndex(s[1..]);
    }
  }

  lemma ReverseOfFew<T>(a: T, b: T, c: T)
    ensures Reverse([a]) == [a] && Reverse([a, b]) == [b, a] && Reverse([a, b, c]) == [c, b, a]
  {
    assert [a][1..] == [] && [b][1..] == [] && [c][1..] == [];
    assert [a, b][1..] == [b] && [b, c][1..] == [c] && [a, b, c][1..] == [b, c];
    assert Reverse([a]) == [a] && Reverse([b]) == [b] && Reverse([c]) == [c];
    assert Reverse([b, c]) == [c, b];
  }

  // ---------------------------------------------------------------------------
  // Distinct elements (`itertools::unique`)

  predicate Distinct<T(==)>(s: seq<T>)
  {
    forall i, j :: 0 <= i < j < |s| ==> s[i] != s[j]
  }

  /** The elements of `s` in order of first occurrence, each once. */
  function Dedup<T(==)>(s: seq<T>): (r: seq<T>)
    ensures forall k :: 0 <= k < |r| ==> r[k] in s
    ensures forall k :: 0 <= k < |s| ==> s[k] in r
    ensures Distinct(r)
    ensures |r| <= |s|
  {
    if s == [] then []
    else
      var rest := Dedup(s[..|s| - 1]);
      if s[|s| - 1] in rest then rest else rest + [s[|s| - 1]]
  }

  /** Counting the distinct elements finds all of them exactly when no element repeats. */
  lemma {:induction false} DedupKeepsAllIffDistinct<T>(s: seq<T>)
    ensures |Dedup(s)| == |s| <==> Distinct(s)
  {
    if s != [] {
      var init := s[..|s| - 1];
      var last := s[|s| - 1];
      DedupKeepsAllIffDistinct(init);
      if last in Dedup(init) {
        var i :| 0 <= i < |init| && init[i] == last;
        assert s[i] == s[|s| - 1];
      } else {
        assert last !in init;
        if Distinct(init) {
          forall i, j | 0 <= i < j < |s| ensures s[i] != s[j] {
            if j < |s| - 1 { assert s[i] == init[i] && s[j] == init[j]; }
            else { assert s[i] in init; }
          }
        } else {
          var i, j :| 0 <= i < j < |init| && init[i] == init[j];
          assert s[i] == s[j];
        }
      }
    }
  }
}

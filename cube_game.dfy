/**
 * Day two of `src/solutions/two.rs`: each line of a game record is reduced
 * to a cube set holding, per colour, the largest count drawn anywhere on
 * the line, and the lines whose set orders below the global cap are counted.
 */
module CubeGame {
  import opened Wrappers
  import opened RustText
  import opened Ordering

  datatype Color = Red | Blue | Green

  function ColorName(color: Color): (name: string)
    ensures name != [] && forall i :: 0 <= i < |name| ==> !IsAsciiDigit(name[i])
  {
    match color
    case Red => "red"
    case Blue => "blue"
    case Green => "green"
  }

  datatype CubeSet = CubeSet(red: I32, blue: I32, green: I32)

  /** Lexicographic order on (red, green, blue). */
  predicate LexLess(a: CubeSet, b: CubeSet) {
    a.red < b.red || (a.red == b.red && (a.green < b.green || (a.green == b.green && a.blue < b.blue)))
  }

  /** `eq`: all three counts agree. */
  predicate Eq(a: CubeSet, b: CubeSet)
    ensures Eq(a, b) <==> a == b
  {
    a.red == b.red && a.green == b.green && a.blue == b.blue
  }

  /** `cmp`: red decides, then green, then blue. */
  function Cmp(a: CubeSet, b: CubeSet): (o: Ordering)
    ensures o == Less <==> LexLess(a, b)
    ensures o == Equal <==> Eq(a, b)
    ensures o == Greater <==> LexLess(b, a)
  {
    CmpInt(a.red, b.red).Then(CmpInt(a.green, b.green)).Then(CmpInt(a.blue, b.blue))
  }

  /** `partial_cmp`: always defined, and consistent with `eq` and the lexicographic order. */
  function PartialCmp(a: CubeSet, b: CubeSet): (r: Option<Ordering>)
    ensures r.Some? && (r.value == Equal <==> a == b) && (r.value == Less <==> LexLess(a, b))
  {
    Some(Cmp(a, b))
  }

  /** `a < b`, through `partial_cmp`. */
  predicate Lt(a: CubeSet, b: CubeSet)
    ensures Lt(a, b) <==> LexLess(a, b)
  {
    PartialCmp(a, b) == Some(Less)
  }

  /** `a >= b`, through `partial_cmp`. */
  predicate Ge(a: CubeSet, b: CubeSet)
    ensures Ge(a, b) <==> !LexLess(a, b)
  {
    PartialCmp(a, b) == Some(Greater) || PartialCmp(a, b) == Some(Equal)
  }

  lemma LtIsLexicographic(a: CubeSet, b: CubeSet)
    ensures Lt(a, b) <==> LexLess(a, b)
    ensures Ge(a, b) <==> !LexLess(a, b)
    ensures Cmp(b, a) == Cmp(a, b).Reverse()
  {
  }

  /** `\s` of the regex crate: the characters with Unicode's White_Space property. */
  predicate IsWhitespace(c: char) {
    c == ' ' || ('\t' <= c <= '\r') || c == '\U{85}' || c == '\U{A0}' || c == '\U{1680}'
    || ('\U{2000}' <= c <= '\U{200A}') || c == '\U{2028}' || c == '\U{2029}'
    || c == '\U{202F}' || c == '\U{205F}' || c == '\U{3000}'
  }

  /** The end of the digit run that starts at `i`: the first non-digit from `i` on. */
  function RunEnd(s: string, i: nat): (e: nat)
    requires i <= |s|
    ensures i <= e <= |s|
    ensures e < |s| ==> !IsAsciiDigit(s[e])
    decreases |s| - i
  {
    if i < |s| && IsAsciiDigit(s[i]) then RunEnd(s, i + 1) else i
  }

  /** Everything from `i` up to the end of the run is a digit. */
  lemma {:induction false} RunEndDigits(s: string, i: nat)
    requires i <= |s|
    ensures AllDigits(s[i..RunEnd(s, i)])
    decreases |s| - i
  {
    if i < |s| && IsAsciiDigit(s[i]) {
      RunEndDigits(s, i + 1);
      assert s[i..RunEnd(s, i)] == [s[i]] + s[i + 1..RunEnd(s, i)];
    }
  }

  /**
   * A match of `(\d+)\s<word>` starts at `a`: a digit run that no digit
   * precedes, then one whitespace character, then `word`.
   */
  predicate OccursAt(s: string, word: string, a: nat) {
    StartsRun(s, a) && WordAfter(s, word, RunEnd(s, a))
  }

  /** A digit run that no digit precedes starts at `a`. */
  predicate StartsRun(s: string, a: nat) {
    a < |s| && IsAsciiDigit(s[a]) && (a == 0 || !IsAsciiDigit(s[a - 1]))
  }

  /** One whitespace character at `e`, then `word`. */
  predicate WordAfter(s: string, word: string, e: nat) {
    e + 1 + |word| <= |s| && IsWhitespace(s[e]) && s[e + 1..e + 1 + |word|] == word
  }

  /** The number of the match starting at `a`: its first whitespace-separated piece. */
  function Amount(s: string, a: nat): nat
    requires a <= |s|
  {
    RunEndDigits(s, a);
    DigitsValue(s[a..RunEnd(s, a)])
  }

  /** The numbers `find_iter` yields, in order, scanning from position `i`. */
  function Amounts(s: string, word: string, i: nat): seq<nat>
    requires i <= |s|
    decreases |s| - i
  {
    if i == |s| then []
    else if OccursAt(s, word, i) then [Amount(s, i)] + Amounts(s, word, RunEnd(s, i) + 1 + |word|)
    else Amounts(s, word, i + 1)
  }

  /** Between the start of a match and its end no other match can start. */
  lemma NoMatchInside(s: string, word: string, a: nat, j: nat)
    requires forall k :: 0 <= k < |word| ==> !IsAsciiDigit(word[k])
    requires OccursAt(s, word, a) && a < j < RunEnd(s, a) + 1 + |word|
    ensures !OccursAt(s, word, j)
  {
    var e := RunEnd(s, a);
    if j < e {
      RunEndDigits(s, a);
      assert s[j - 1] == s[a..e][j - 1 - a];
    } else if j > e {
      assert s[j] == word[j - e - 1];
    }
  }

  /** A position that holds no match adds no match to those after it. */
  lemma MatchesPastSkip(s: string, word: string, i: nat, v: nat)
    requires i < |s| && !OccursAt(s, word, i)
    ensures (exists a :: i <= a < |s| && OccursAt(s, word, a) && Amount(s, a) == v)
      <==> (exists a :: i + 1 <= a < |s| && OccursAt(s, word, a) && Amount(s, a) == v)
  {
  }

  /** A match at `i` adds its own number, and nothing before its end. */
  lemma MatchesPastMatch(s: string, word: string, i: nat, v: nat)
    requires forall k :: 0 <= k < |word| ==> !IsAsciiDigit(word[k])
    requires i < |s| && OccursAt(s, word, i)
    ensures (exists a :: i <= a < |s| && OccursAt(s, word, a) && Amount(s, a) == v)
      <==> (Amount(s, i) == v
        || exists a :: RunEnd(s, i) + 1 + |word| <= a < |s| && OccursAt(s, word, a) && Amount(s, a) == v)
  {
    var next := RunEnd(s, i) + 1 + |word|;
    if exists a :: i <= a < |s| && OccursAt(s, word, a) && Amount(s, a) == v {
      var a :| i <= a < |s| && OccursAt(s, word, a) && Amount(s, a) == v;
      if i < a < next {
        NoMatchInside(s, word, i, a);
      }
    }
    if Amount(s, i) == v {
      assert i <= i < |s| && OccursAt(s, word, i) && Amount(s, i) == v;
    }
  }

  /** The scan yields exactly the numbers of the matches from `i` on. */
  lemma {:induction false} AmountsMember(s: string, word: string, i: nat, v: nat)
    requires i <= |s|
    requires forall k :: 0 <= k < |word| ==> !IsAsciiDigit(word[k])
    ensures v in Amounts(s, word, i) <==> exists a :: i <= a < |s| && OccursAt(s, word, a) && Amount(s, a) == v
    decreases |s| - i
  {
    if i == |s| {
    } else if OccursAt(s, word, i) {
      var next := RunEnd(s, i) + 1 + |word|;
      assert Amounts(s, word, i) == [Amount(s, i)] + Amounts(s, word, next);
      AmountsMember(s, word, next, v);
      MatchesPastMatch(s, word, i, v);
    } else {
      assert Amounts(s, word, i) == Amounts(s, word, i + 1);
      AmountsMember(s, word, i + 1, v);
      MatchesPastSkip(s, word, i, v);
    }
  }

  /** No match of `word` anywhere on the line. */
  predicate Absent(input: string, word: string) {
    forall a :: 0 <= a < |input| ==> !OccursAt(input, word, a)
  }

  /** Every matched number of `word` fits an `i32`, so parsing it does not panic. */
  predicate AmountsFit(input: string, word: string) {
    forall a :: 0 <= a < |input| && OccursAt(input, word, a) ==> Amount(input, a) <= I32_MAX
  }

  /** `v` is the largest number drawn for `word` on the line. */
  predicate IsMaxAmount(input: string, word: string, v: int) {
    (exists a :: 0 <= a < |input| && OccursAt(input, word, a) && Amount(input, a) == v)
    && forall a :: 0 <= a < |input| && OccursAt(input, word, a) ==> Amount(input, a) <= v
  }

  /** `m` is one of `xs` and no element of `xs` exceeds it. */
  predicate Largest(xs: seq<nat>, m: int) {
    m in xs && forall i :: 0 <= i < |xs| ==> xs[i] <= m
  }

  function Max(xs: seq<nat>): (m: nat)
    requires xs != []
    ensures m in xs && forall i :: 0 <= i < |xs| ==> xs[i] <= m
  {
    if |xs| == 1 then xs[0]
    else
      var m := Max(xs[1..]);
      assert forall i :: 1 <= i < |xs| ==> xs[i] == xs[1..][i - 1];
      if xs[0] >= m then xs[0] else m
  }

  /** Every number the scan yields fits an `i32`. */
  predicate Fits(amounts: seq<nat>) {
    forall i :: 0 <= i < |amounts| ==> amounts[i] <= I32_MAX
  }

  /**
   * `extract_max_for_color`: the largest number the scan yields, or `None`
   * where the source's `expect` panics because nothing matched.
   */
  function ExtractMaxForColor(color: Color, input: string): (r: Option<I32>)
    requires Fits(Amounts(input, ColorName(color), 0))
    ensures r.None? <==> Amounts(input, ColorName(color), 0) == []
  {
    var amounts := Amounts(input, ColorName(color), 0);
    if amounts == [] then None else Some(Max(amounts))
  }

  /** The scan's numbers are the numbers of all matches on the line. */
  lemma AmountsAreMatches(input: string, word: string)
    requires forall k :: 0 <= k < |word| ==> !IsAsciiDigit(word[k])
    ensures forall v :: v in Amounts(input, word, 0) <==> exists a :: 0 <= a < |input| && OccursAt(input, word, a) && Amount(input, a) == v
  {
    forall v
      ensures v in Amounts(input, word, 0) <==> exists a :: 0 <= a < |input| && OccursAt(input, word, a) && Amount(input, a) == v
    {
      AmountsMember(input, word, 0, v);
    }
  }

  /** The scan's numbers fit exactly when every match's number does. */
  lemma FitsIffAmountsFit(input: string, word: string)
    requires forall k :: 0 <= k < |word| ==> !IsAsciiDigit(word[k])
    ensures Fits(Amounts(input, word, 0)) <==> AmountsFit(input, word)
    ensures Amounts(input, word, 0) == [] <==> Absent(input, word)
  {
    var amounts := Amounts(input, word, 0);
    AmountsAreMatches(input, word);
    assert forall a :: 0 <= a < |input| && OccursAt(input, word, a) ==> Amount(input, a) in amounts;
    if Fits(amounts) {
      forall a | 0 <= a < |input| && OccursAt(input, word, a)
        ensures Amount(input, a) <= I32_MAX
      {
        assert Amount(input, a) in amounts;
      }
    }
    if AmountsFit(input, word) {
      forall i | 0 <= i < |amounts|
        ensures amounts[i] <= I32_MAX
      {
        assert amounts[i] in amounts;
      }
    }
    if amounts != [] {
      assert amounts[0] in amounts;
    }
  }

  /** `None` exactly when the colour never occurs; otherwise its largest count. */
  lemma ExtractMaxIsLargest(color: Color, input: string)
    requires AmountsFit(input, ColorName(color))
    ensures Fits(Amounts(input, ColorName(color), 0))
    ensures ExtractMaxForColor(color, input).None? <==> Absent(input, ColorName(color))
    ensures ExtractMaxForColor(color, input).Some? ==>
      IsMaxAmount(input, ColorName(color), ExtractMaxForColor(color, input).value)
  {
    var word := ColorName(color);
    var amounts := Amounts(input, word, 0);
    AmountsAreMatches(input, word);
    FitsIffAmountsFit(input, word);
    assert forall a :: 0 <= a < |input| && OccursAt(input, word, a) ==> Amount(input, a) in amounts;
  }

  /** Every colour is drawn somewhere on the line, and every count fits an `i32`. */
  predicate Buildable(input: string) {
    forall color: Color :: Amounts(input, ColorName(color), 0) != [] && Fits(Amounts(input, ColorName(color), 0))
  }

  /** `build` does not panic exactly when each colour occurs and all its counts fit. */
  lemma BuildableIff(input: string)
    ensures Buildable(input) <==> forall color: Color :: !Absent(input, ColorName(color)) && AmountsFit(input, ColorName(color))
  {
    forall color: Color
      ensures Amounts(input, ColorName(color), 0) != [] && Fits(Amounts(input, ColorName(color), 0))
        <==> !Absent(input, ColorName(color)) && AmountsFit(input, ColorName(color))
    {
      FitsIffAmountsFit(input, ColorName(color));
    }
  }

  /** `CubeSet::build`: one `extract_max_for_color` per colour. */
  function Build(input: string): (r: CubeSet)
    requires Buildable(input)
    ensures Largest(Amounts(input, ColorName(Red), 0), r.red)
    ensures Largest(Amounts(input, ColorName(Blue), 0), r.blue)
    ensures Largest(Amounts(input, ColorName(Green), 0), r.green)
  {
    assert Fits(Amounts(input, ColorName(Red), 0)) && Amounts(input, ColorName(Red), 0) != [];
    assert Fits(Amounts(input, ColorName(Blue), 0)) && Amounts(input, ColorName(Blue), 0) != [];
    assert Fits(Amounts(input, ColorName(Green), 0)) && Amounts(input, ColorName(Green), 0) != [];
    CubeSet(ExtractMaxForColor(Red, input).value, ExtractMaxForColor(Blue, input).value,
            ExtractMaxForColor(Green, input).value)
  }

  /** Each count of the built set is the largest count of its colour on the line. */
  lemma BuildIsMax(input: string)
    requires Buildable(input)
    ensures IsMaxAmount(input, "red", Build(input).red)
    ensures IsMaxAmount(input, "blue", Build(input).blue)
    ensures IsMaxAmount(input, "green", Build(input).green)
  {
    BuildableIff(input);
    assert AmountsFit(input, ColorName(Red)) && AmountsFit(input, ColorName(Blue)) && AmountsFit(input, ColorName(Green));
    ExtractMaxIsLargest(Red, input);
    ExtractMaxIsLargest(Blue, input);
    ExtractMaxIsLargest(Green, input);
  }

  /** Skipping positions where no match starts leaves the scan unchanged. */
  lemma {:induction false} SkipNoMatch(s: string, word: string, i: nat, k: nat)
    requires i <= k <= |s|
    requires forall j :: i <= j < k ==> !OccursAt(s, word, j)
    ensures Amounts(s, word, i) == Amounts(s, word, k)
    decreases k - i
  {
    if i < k {
      SkipNoMatch(s, word, i + 1, k);
    }
  }

  /** A digit run from `i` that stops before a non-digit at `k` ends at `k`. */
  lemma {:induction false} RunEndAt(s: string, i: nat, k: nat)
    requires i <= k <= |s|
    requires forall j :: i <= j < k ==> IsAsciiDigit(s[j])
    requires k < |s| ==> !IsAsciiDigit(s[k])
    ensures RunEnd(s, i) == k
    decreases k - i
  {
    if i < k {
      RunEndAt(s, i + 1, k);
    }
  }

  /** A digit run in `b` ends at the same place behind any prefix. */
  lemma {:induction false} RunEndShift(a: string, b: string, j: nat)
    requires j <= |b|
    ensures RunEnd(a + b, |a| + j) == |a| + RunEnd(b, j)
    decreases |b| - j
  {
    if j < |b| {
      assert (a + b)[|a| + j] == b[j];
      if IsAsciiDigit(b[j]) {
        RunEndShift(a, b, j + 1);
      }
    }
  }

  /** A slice of `b` is the same slice of `a + b`, moved by `|a|`. */
  lemma SliceShift(a: string, b: string, i: nat, k: nat)
    requires i <= k <= |b|
    ensures (a + b)[|a| + i..|a| + k] == b[i..k]
  {
    assert (a + b)[|a|..] == b;
    assert (a + b)[|a| + i..|a| + k] == (a + b)[|a|..][i..k];
  }

  /** What follows a digit run ending at `e` in `b` also follows it behind a prefix. */
  lemma TailShift(a: string, b: string, word: string, e: nat)
    requires e <= |b|
    ensures WordAfter(a + b, word, |a| + e) <==> WordAfter(b, word, e)
  {
    if e + 1 + |word| <= |b| {
      assert (a + b)[|a| + e] == b[e];
      SliceShift(a, b, e + 1, e + 1 + |word|);
    }
  }

  /** A run start in `b` is one behind a prefix that ends in a non-digit, and conversely. */
  lemma StartShift(a: string, b: string, j: nat)
    requires |a| > 0 ==> !IsAsciiDigit(a[|a| - 1])
    requires j < |b|
    ensures StartsRun(a + b, |a| + j) <==> StartsRun(b, j)
  {
    var s := a + b;
    assert s[|a| + j] == b[j];
    if j > 0 {
      assert s[|a| + j - 1] == b[j - 1];
    } else if |a| > 0 {
      assert s[|a| - 1] == a[|a| - 1];
    }
  }

  /** Matches in `b` are unchanged behind a prefix that ends in a non-digit. */
  lemma OccursAtShift(a: string, b: string, word: string, j: nat)
    requires |a| > 0 ==> !IsAsciiDigit(a[|a| - 1])
    requires j < |b|
    ensures OccursAt(a + b, word, |a| + j) <==> OccursAt(b, word, j)
  {
    RunEndShift(a, b, j);
    TailShift(a, b, word, RunEnd(b, j));
    StartShift(a, b, j);
  }

  /** The number of a match in `b` is unchanged behind any prefix. */
  lemma AmountShift(a: string, b: string, j: nat)
    requires j <= |b|
    ensures Amount(a + b, |a| + j) == Amount(b, j)
  {
    RunEndShift(a, b, j);
    SliceShift(a, b, j, RunEnd(b, j));
  }

  /** A match of `b` is taken behind the prefix `a` too, with the same number and end. */
  lemma ShiftMatch(a: string, b: string, word: string, j: nat)
    requires |a| > 0 ==> !IsAsciiDigit(a[|a| - 1])
    requires j < |b| && OccursAt(b, word, j)
    ensures RunEnd(b, j) + 1 + |word| <= |b|
    ensures Amounts(a + b, word, |a| + j) == [Amount(b, j)] + Amounts(a + b, word, |a| + RunEnd(b, j) + 1 + |word|)
  {
    OccursAtShift(a, b, word, j);
    RunEndShift(a, b, j);
    AmountShift(a, b, j);
  }

  /** A position of `b` where no match starts is skipped behind the prefix `a` too. */
  lemma ShiftSkip(a: string, b: string, word: string, j: nat)
    requires |a| > 0 ==> !IsAsciiDigit(a[|a| - 1])
    requires j < |b| && !OccursAt(b, word, j)
    ensures Amounts(a + b, word, |a| + j) == Amounts(a + b, word, |a| + j + 1)
  {
    OccursAtShift(a, b, word, j);
  }

  /** Scanning `b` after a prefix `a` that ends in a non-digit is scanning `b` alone. */
  lemma {:induction false} AmountsShift(a: string, b: string, word: string, j: nat)
    requires |a| > 0 ==> !IsAsciiDigit(a[|a| - 1])
    requires j <= |b|
    ensures Amounts(a + b, word, |a| + j) == Amounts(b, word, j)
    decreases |b| - j
  {
    if j < |b| {
      if OccursAt(b, word, j) {
        ShiftMatch(a, b, word, j);
        ScanTakes(b, word, j);
        AmountsShift(a, b, word, RunEnd(b, j) + 1 + |word|);
      } else {
        ShiftSkip(a, b, word, j);
        ScanSkips(b, word, j);
        AmountsShift(a, b, word, j + 1);
      }
    }
  }

  /** At a match the scan takes its number and resumes after the colour word. */
  lemma ScanTakes(s: string, word: string, j: nat)
    requires j < |s| && OccursAt(s, word, j)
    ensures Amounts(s, word, j) == [Amount(s, j)] + Amounts(s, word, RunEnd(s, j) + 1 + |word|)
  {
  }

  /** Where no match starts the scan moves on by one character. */
  lemma ScanSkips(s: string, word: string, j: nat)
    requires j < |s| && !OccursAt(s, word, j)
    ensures Amounts(s, word, j) == Amounts(s, word, j + 1)
  {
  }

  /** The decimal numeral of `n`, without leading zeros. */
  function Numeral(n: nat): (r: string)
    ensures r != [] && AllDigits(r) && DigitsValue(r) == n
  {
    var last := ('0' as int + n % 10) as char;
    if n < 10 then [last]
    else
      var r := Numeral(n / 10) + [last];
      assert r[..|r| - 1] == Numeral(n / 10);
      r
  }

  datatype Separator = Comma | Semicolon | End

  function SeparatorText(sep: Separator): (t: string)
    ensures forall k :: 0 <= k < |t| ==> !IsAsciiDigit(t[k])
  {
    match sep
    case Comma => ","
    case Semicolon => ";"
    case End => ""
  }

  /** One draw of a game record: a space, a count, a space, a colour, then a separator. */
  datatype Draw = Draw(count: nat, color: Color, sep: Separator)

  function DrawText(d: Draw): string {
    " " + Numeral(d.count) + " " + ColorName(d.color) + SeparatorText(d.sep)
  }

  function DrawsText(ds: seq<Draw>): string {
    if ds == [] then "" else DrawText(ds[0]) + DrawsText(ds[1..])
  }

  /** A game record: its number, a colon, then the draws. */
  function GameLine(id: nat, ds: seq<Draw>): string {
    "Game " + Numeral(id) + ":" + DrawsText(ds)
  }

  /** The counts of the draws of one colour, in order. */
  function CountsOf(ds: seq<Draw>, color: Color): seq<nat> {
    if ds == [] then []
    else (if ds[0].color == color then [ds[0].count] else []) + CountsOf(ds[1..], color)
  }

  /** Where the characters of a draw sit in the line. */
  lemma DrawLayout(d: Draw, rest: string)
    ensures var s := DrawText(d) + rest; var num := Numeral(d.count); var n := |num|;
      var name := ColorName(d.color); var sep := SeparatorText(d.sep);
      |DrawText(d)| == n + 2 + |name| + |sep|
      && s[0] == ' ' && s[n + 1] == ' '
      && (forall k :: 0 <= k < n ==> s[1 + k] == num[k])
      && (forall k :: 0 <= k < |name| ==> s[n + 2 + k] == name[k])
      && (forall k :: 0 <= k < |sep| ==> s[n + 2 + |name| + k] == sep[k])
  {
  }

  /** Past the count's first digit, no match starts inside a draw. */
  lemma DrawTail(d: Draw, rest: string, color: Color, from: nat)
    requires 2 <= from <= |DrawText(d)|
    ensures Amounts(DrawText(d) + rest, ColorName(color), from) == Amounts(rest, ColorName(color), 0)
  {
    var t := DrawText(d);
    var s := t + rest;
    var word := ColorName(color);
    forall j | from <= j < |t|
      ensures !OccursAt(s, word, j)
    {
      NoMatchInDraw(d, rest, word, j);
    }
    SkipNoMatch(s, word, from, |t|);
    AmountsShift(t, rest, word, 0);
  }

  /** No match of a colour word starts inside a draw past its count's first digit. */
  lemma NoMatchInDraw(d: Draw, rest: string, word: string, j: nat)
    requires 2 <= j < |DrawText(d)|
    ensures !OccursAt(DrawText(d) + rest, word, j)
  {
    var s := DrawText(d) + rest;
    var num := Numeral(d.count);
    var n := |num|;
    var name := ColorName(d.color);
    var sep := SeparatorText(d.sep);
    DrawLayout(d, rest);
    if j <= n {
      assert s[j - 1] == num[j - 2];
    } else if n + 2 <= j < n + 2 + |name| {
      assert s[j] == name[j - n - 2];
    } else if j >= n + 2 + |name| {
      assert s[j] == sep[j - n - 2 - |name|];
    }
  }

  /** A draw opens with a space, then its count's digit run. */
  lemma DrawStart(d: Draw, rest: string, word: string)
    ensures var s := DrawText(d) + rest; var n := |Numeral(d.count)|;
      Amounts(s, word, 0) == Amounts(s, word, 1) && RunEnd(s, 1) == n + 1
      && s[1..n + 1] == Numeral(d.count) && s[n + 1] == ' '
  {
    var s := DrawText(d) + rest;
    var num := Numeral(d.count);
    var n := |num|;
    DrawLayout(d, rest);
    assert !OccursAt(s, word, 0);
    forall j | 1 <= j < n + 1
      ensures IsAsciiDigit(s[j])
    {
      assert s[j] == num[j - 1];
    }
    RunEndAt(s, 1, n + 1);
    assert s[1..n + 1] == num;
  }

  /** The count of a draw is matched for its own colour and for no other. */
  lemma DrawHead(d: Draw, rest: string, color: Color)
    ensures var s := DrawText(d) + rest; var n := |Numeral(d.count)|; var word := ColorName(color);
      Amounts(s, word, 0)
      == if d.color == color then [d.count] + Amounts(s, word, n + 2 + |word|)
         else Amounts(s, word, 2)
  {
    if d.color == color {
      OwnColorHead(d, rest);
    } else {
      OtherColorHead(d, rest, color);
    }
  }

  /** The colour word of a draw follows its count and the space after it. */
  lemma NameAt(d: Draw, rest: string)
    ensures var s := DrawText(d) + rest; var n := |Numeral(d.count)|; var name := ColorName(d.color);
      n + 2 + |name| <= |s| && s[n + 2..n + 2 + |name|] == name && s[n + 2] == name[0]
  {
    DrawLayout(d, rest);
  }

  /** For its own colour, the draw's text starts with a match of its count. */
  lemma OwnColorHead(d: Draw, rest: string)
    ensures var s := DrawText(d) + rest; var n := |Numeral(d.count)|; var word := ColorName(d.color);
      Amounts(s, word, 0) == [d.count] + Amounts(s, word, n + 2 + |word|)
  {
    var s := DrawText(d) + rest;
    var n := |Numeral(d.count)|;
    var word := ColorName(d.color);
    DrawStart(d, rest, word);
    NameAt(d, rest);
    assert OccursAt(s, word, 1);
    assert Amount(s, 1) == d.count;
    assert Amounts(s, word, 1) == [Amount(s, 1)] + Amounts(s, word, n + 2 + |word|);
  }

  /** For another colour, the draw's count is no match. */
  lemma OtherColorHead(d: Draw, rest: string, color: Color)
    requires d.color != color
    ensures var s := DrawText(d) + rest; var word := ColorName(color);
      Amounts(s, word, 0) == Amounts(s, word, 2)
  {
    var s := DrawText(d) + rest;
    var n := |Numeral(d.count)|;
    var word := ColorName(color);
    DrawStart(d, rest, word);
    NameAt(d, rest);
    assert s[n + 2] != word[0];
    if n + 2 + |word| <= |s| {
      assert s[n + 2..n + 2 + |word|][0] == s[n + 2];
    }
    assert !OccursAt(s, word, 1);
  }

  /** A draw yields its count for its own colour and nothing for the others. */
  lemma DrawAmounts(d: Draw, rest: string, color: Color)
    ensures Amounts(DrawText(d) + rest, ColorName(color), 0)
      == (if d.color == color then [d.count] else []) + Amounts(rest, ColorName(color), 0)
  {
    DrawHead(d, rest, color);
    if d.color == color {
      DrawTail(d, rest, color, |Numeral(d.count)| + 2 + |ColorName(color)|);
    } else {
      DrawTail(d, rest, color, 2);
    }
  }

  /** The scan of the draws yields exactly the counts of that colour, in order. */
  lemma {:induction false} DrawsAmounts(ds: seq<Draw>, color: Color)
    ensures Amounts(DrawsText(ds), ColorName(color), 0) == CountsOf(ds, color)
  {
    if ds != [] {
      DrawAmounts(ds[0], DrawsText(ds[1..]), color);
      DrawsAmounts(ds[1..], color);
    }
  }

  /** The game number is never taken for a count: a colon, not a space, follows it. */
  lemma HeadAmounts(id: nat, rest: string, color: Color)
    ensures Amounts("Game " + Numeral(id) + ":" + rest, ColorName(color), 0) == Amounts(rest, ColorName(color), 0)
  {
    var num := Numeral(id);
    var h := "Game " + num + ":";
    var s := h + rest;
    var n := |num|;
    var word := ColorName(color);
    assert s[0] == 'G' && s[1] == 'a' && s[2] == 'm' && s[3] == 'e' && s[4] == ' ';
    assert s[5 + n] == ':';
    forall j | 5 <= j < 5 + n
      ensures IsAsciiDigit(s[j])
    {
      assert s[j] == num[j - 5];
    }
    RunEndAt(s, 5, 5 + n);
    forall j | 0 <= j < |h|
      ensures !OccursAt(s, word, j)
    {
      if 5 < j < 5 + n {
        assert IsAsciiDigit(s[j - 1]);
      }
    }
    SkipNoMatch(s, word, 0, |h|);
    AmountsShift(h, rest, word, 0);
  }

  /** On a game record the scan yields exactly the counts of the colour's draws. */
  lemma GameLineAmounts(id: nat, ds: seq<Draw>, color: Color)
    ensures Amounts(GameLine(id, ds), ColorName(color), 0) == CountsOf(ds, color)
  {
    HeadAmounts(id, DrawsText(ds), color);
    DrawsAmounts(ds, color);
  }

  /** On a record where every colour is drawn, `build` takes each colour's largest count. */
  lemma BuildGameLine(id: nat, ds: seq<Draw>)
    requires CountsOf(ds, Red) != [] && Fits(CountsOf(ds, Red))
    requires CountsOf(ds, Blue) != [] && Fits(CountsOf(ds, Blue))
    requires CountsOf(ds, Green) != [] && Fits(CountsOf(ds, Green))
    ensures Buildable(GameLine(id, ds))
    ensures Build(GameLine(id, ds)).red == Max(CountsOf(ds, Red))
    ensures Build(GameLine(id, ds)).blue == Max(CountsOf(ds, Blue))
    ensures Build(GameLine(id, ds)).green == Max(CountsOf(ds, Green))
  {
    forall color: Color
      ensures Amounts(GameLine(id, ds), ColorName(color), 0) == CountsOf(ds, color)
    {
      GameLineAmounts(id, ds, color);
    }
  }

  /** Counting the draws of two stretches of a record is counting each in turn. */
  lemma {:induction false} CountsOfAppend(a: seq<Draw>, b: seq<Draw>, color: Color)
    ensures CountsOf(a + b, color) == CountsOf(a, color) + CountsOf(b, color)
  {
    if a == [] {
      assert a + b == b;
    } else {
      var head := if a[0].color == color then [a[0].count] else [];
      assert (a + b)[0] == a[0];
      assert (a + b)[1..] == a[1..] + b;
      assert CountsOf(a + b, color) == head + CountsOf(a[1..] + b, color);
      assert CountsOf(a, color) == head + CountsOf(a[1..], color);
      CountsOfAppend(a[1..], b, color);
    }
  }

  /**
   * The four handfuls of "Game 5: 9 green, 1 red; 18 green, 2 red, 7 blue;
   * 1 blue, 9 green, 3 red; 3 red, 15 blue, 18 green".
   */
  const HandfulOne: seq<Draw> := [Draw(9, Green, Comma), Draw(1, Red, Semicolon)]
  const HandfulTwo: seq<Draw> := [Draw(18, Green, Comma), Draw(2, Red, Comma), Draw(7, Blue, Semicolon)]
  const HandfulThree: seq<Draw> := [Draw(1, Blue, Comma), Draw(9, Green, Comma), Draw(3, Red, Semicolon)]
  const HandfulFour: seq<Draw> := [Draw(3, Red, Comma), Draw(15, Blue, Comma), Draw(18, Green, End)]

  const GameFiveDraws: seq<Draw> := HandfulOne + HandfulTwo + HandfulThree + HandfulFour

  /** The counts of each handful of Game 5. */
  lemma HandfulCounts()
    ensures CountsOf(HandfulOne, Red) == [1] && CountsOf(HandfulOne, Blue) == [] && CountsOf(HandfulOne, Green) == [9]
    ensures CountsOf(HandfulTwo, Red) == [2] && CountsOf(HandfulTwo, Blue) == [7] && CountsOf(HandfulTwo, Green) == [18]
    ensures CountsOf(HandfulThree, Red) == [3] && CountsOf(HandfulThree, Blue) == [1] && CountsOf(HandfulThree, Green) == [9]
    ensures CountsOf(HandfulFour, Red) == [3] && CountsOf(HandfulFour, Blue) == [15] && CountsOf(HandfulFour, Green) == [18]
  {
  }

  /** The counts drawn for each colour in Game 5, in order. */
  lemma GameFiveCounts()
    ensures CountsOf(GameFiveDraws, Red) == [1, 2, 3, 3]
    ensures CountsOf(GameFiveDraws, Blue) == [7, 1, 15]
    ensures CountsOf(GameFiveDraws, Green) == [9, 18, 9, 18]
  {
    HandfulCounts();
    forall color: Color
      ensures CountsOf(GameFiveDraws, color)
        == CountsOf(HandfulOne, color) + CountsOf(HandfulTwo, color)
        + CountsOf(HandfulThree, color) + CountsOf(HandfulFour, color)
    {
      CountsOfAppend(HandfulOne + HandfulTwo + HandfulThree, HandfulFour, color);
      CountsOfAppend(HandfulOne + HandfulTwo, HandfulThree, color);
      CountsOfAppend(HandfulOne, HandfulTwo, color);
    }
  }

  /** Game 5 builds to 3 red, 15 blue and 18 green, whatever its game number. */
  lemma BuildGameFive(id: nat)
    ensures Buildable(GameLine(id, GameFiveDraws))
    ensures Build(GameLine(id, GameFiveDraws)) == CubeSet(3, 15, 18)
  {
    GameFiveCounts();
    var red := CountsOf(GameFiveDraws, Red);
    var blue := CountsOf(GameFiveDraws, Blue);
    var green := CountsOf(GameFiveDraws, Green);
    BuildGameLine(id, GameFiveDraws);
    assert Max(red) == 3 by { assert red[2] == 3; }
    assert Max(blue) == 15 by { assert blue[2] == 15; }
    assert Max(green) == 18 by { assert green[1] == 18; }
  }

  /** `global_cap` of `calculate_val`: 12 red, 13 green, 14 blue. */
  const GlobalCap: CubeSet := CubeSet(12, 14, 13)

  /** The cube set of every line. */
  function BuiltSets(lines: seq<string>): seq<CubeSet>
    requires forall i :: 0 <= i < |lines| ==> Buildable(lines[i])
  {
    seq(|lines|, i requires 0 <= i < |lines| => Build(lines[i]))
  }

  /** How many of the first `n` sets order below the cap. */
  function CountBelow(sets: seq<CubeSet>, n: nat): (k: nat)
    requires n <= |sets|
    ensures k <= n
  {
    if n == 0 then 0 else CountBelow(sets, n - 1) + if Lt(sets[n - 1], GlobalCap) then 1 else 0
  }

  /** The counting loop of `calculate_val`, over the lines of the file. */
  method CountBelowCap(lines: seq<string>) returns (res: nat)
    requires forall i :: 0 <= i < |lines| ==> Buildable(lines[i])
    ensures res == CountBelow(BuiltSets(lines), |lines|)
    ensures res == |set i: nat | i < |lines| && Lt(Build(lines[i]), GlobalCap)|
  {
    ghost var sets := BuiltSets(lines);
    res := 0;
    var i := 0;
    while i < |lines|
      invariant i <= |lines|
      invariant res == CountBelow(sets, i)
    {
      var currSet := Build(lines[i]);
      CountedNext(lines, i);
      if Lt(currSet, GlobalCap) {
        res := res + 1;
      }
      i := i + 1;
    }
    CountedLines(lines);
  }

  /** One more line adds one to the count exactly when its set is below the cap. */
  lemma CountedNext(lines: seq<string>, i: nat)
    requires forall i :: 0 <= i < |lines| ==> Buildable(lines[i])
    requires i < |lines|
    ensures CountBelow(BuiltSets(lines), i + 1)
      == CountBelow(BuiltSets(lines), i) + if Lt(Build(lines[i]), GlobalCap) then 1 else 0
  {
    assert BuiltSets(lines)[i] == Build(lines[i]);
  }

  /** The positions, among the first `n`, of the sets below the cap. */
  function BelowCap(sets: seq<CubeSet>, n: nat): set<nat>
    requires n <= |sets|
  {
    set i: nat | i < n && Lt(sets[i], GlobalCap)
  }

  /** The count is the number of sets below the cap. */
  lemma {:induction false} CountBelowIsCardinality(sets: seq<CubeSet>, n: nat)
    requires n <= |sets|
    ensures CountBelow(sets, n) == |BelowCap(sets, n)|
  {
    if n == 0 {
      assert BelowCap(sets, 0) == {};
    } else {
      CountBelowIsCardinality(sets, n - 1);
      if Lt(sets[n - 1], GlobalCap) {
        assert BelowCap(sets, n) == BelowCap(sets, n - 1) + {n - 1};
      } else {
        assert BelowCap(sets, n) == BelowCap(sets, n - 1);
      }
    }
  }

  /** Over the lines of the file, the count is the number of lines whose set is below the cap. */
  lemma CountedLines(lines: seq<string>)
    requires forall i :: 0 <= i < |lines| ==> Buildable(lines[i])
    ensures CountBelow(BuiltSets(lines), |lines|) == |set i: nat | i < |lines| && Lt(Build(lines[i]), GlobalCap)|
  {
    var sets := BuiltSets(lines);
    CountBelowIsCardinality(sets, |lines|);
    BelowCapOfLines(lines);
  }

  /** The positions below the cap, read off the lines themselves. */
  lemma BelowCapOfLines(lines: seq<string>)
    requires forall i :: 0 <= i < |lines| ==> Buildable(lines[i])
    ensures BelowCap(BuiltSets(lines), |lines|) == set i: nat | i < |lines| && Lt(Build(lines[i]), GlobalCap)
  {
    var sets := BuiltSets(lines);
    forall i: nat | i < |lines|
      ensures i in BelowCap(sets, |lines|) <==> Lt(Build(lines[i]), GlobalCap)
    {
      assert sets[i] == Build(lines[i]);
    }
  }

  /** The count reaches `n` exactly when every set is below the cap. */
  lemma {:induction false} CountBelowAll(sets: seq<CubeSet>, n: nat)
    requires n <= |sets|
    ensures CountBelow(sets, n) == n <==> forall i :: 0 <= i < n ==> Lt(sets[i], GlobalCap)
  {
    if n > 0 {
      CountBelowAll(sets, n - 1);
    }
  }

  /** The count is zero exactly when no set is below the cap. */
  lemma {:induction false} CountBelowNone(sets: seq<CubeSet>, n: nat)
    requires n <= |sets|
    ensures CountBelow(sets, n) == 0 <==> forall i :: 0 <= i < n ==> !Lt(sets[i], GlobalCap)
  {
    if n > 0 {
      CountBelowNone(sets, n - 1);
    }
  }

  /** A set counts exactly when it has fewer red cubes than the cap, or as many red and fewer green, or as many red and green and fewer blue. */
  lemma CountedIff(cs: CubeSet)
    ensures Lt(cs, GlobalCap) <==> cs.red < 12 || (cs.red == 12 && (cs.green < 13 || (cs.green == 13 && cs.blue < 14)))
  {
  }

  /** The order is not a per-colour comparison: far more blue and green than the cap still counts. */
  lemma NotComponentwise()
    ensures Lt(CubeSet(11, 1000, 1000), GlobalCap)
    ensures !Lt(CubeSet(13, 0, 0), GlobalCap)
  {
  }

  /** The cap of the tests: 12 red, 13 blue, 14 green. */
  const TestCap: CubeSet := CubeSet(12, 13, 14)

  lemma LargerThanCap()
    ensures Lt(TestCap, CubeSet(16, 9, 17))
  {
  }

  lemma SmallerThanCap()
    ensures Ge(TestCap, CubeSet(10, 9, 11))
  {
  }

  lemma EqualToCap()
    ensures Ge(TestCap, CubeSet(12, 9, 14))
  {
  }
}

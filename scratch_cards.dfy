/**
 * The scratch cards of `src/solutions/four.rs`: a card line is
 * `Card N: <winning numbers> | <numbers you have>`, and it scores 0 points
 * with no match and 2^(k-1) points with k matches.
 */
module ScratchCards {
  import opened Wrappers
  import opened RustText

  /** The numbers of the left-hand tokens that parse as `i32`. */
  function Winning(left: seq<string>): set<int>
  {
    if left == [] then {}
    else
      var rest := Winning(left[..|left| - 1]);
      match ParseI32(left[|left| - 1])
      case Some(v) => rest + {v}
      case None => rest
  }

  /** A number is winning exactly when some left-hand token parses to it. */
  lemma {:induction false} WinningMember(left: seq<string>, v: int)
    ensures v in Winning(left) <==> exists i :: 0 <= i < |left| && ParseI32(left[i]) == Some(v)
  {
    if left != [] {
      var prefix := left[..|left| - 1];
      WinningMember(prefix, v);
      assert forall i :: 0 <= i < |prefix| ==> prefix[i] == left[i];
      if exists i :: 0 <= i < |left| && ParseI32(left[i]) == Some(v) {
        var i :| 0 <= i < |left| && ParseI32(left[i]) == Some(v);
        if i < |prefix| {
          assert ParseI32(prefix[i]) == Some(v);
        }
      }
    }
  }

  /** The right-hand token parses and its number is a winning one. */
  predicate IsMatch(w: set<int>, t: string) {
    ParseI32(t).Some? && ParseI32(t).value in w
  }

  /** How many right-hand tokens match, counting repeated tokens each time. */
  function MatchCount(w: set<int>, right: seq<string>): (k: nat)
    ensures k <= |right|
  {
    if right == [] then 0
    else MatchCount(w, right[..|right| - 1]) + (if IsMatch(w, right[|right| - 1]) then 1 else 0)
  }

  /** No match at all exactly when no right-hand token is a winning number. */
  lemma {:induction false} MatchCountZero(w: set<int>, right: seq<string>)
    ensures MatchCount(w, right) == 0 <==> forall i :: 0 <= i < |right| ==> !IsMatch(w, right[i])
  {
    if right != [] {
      var prefix := right[..|right| - 1];
      MatchCountZero(w, prefix);
      assert forall i :: 0 <= i < |prefix| ==> prefix[i] == right[i];
    }
  }

  function Pow2(e: nat): (p: nat)
    ensures p >= 1
  {
    if e == 0 then 1 else 2 * Pow2(e - 1)
  }

  /** The points of a card with `k` matches. */
  function Score(k: nat): int
  {
    if k == 0 then 0 else Pow2(k - 1)
  }

  /**
   * `get_result`: collect the winning numbers in a set, count the matching
   * numbers you have, and score them. `i32::pow` overflows past 2^30, so
   * the source needs at most 31 matches.
   */
  method GetResult(left: seq<string>, right: seq<string>) returns (r: int)
    requires MatchCount(Winning(left), right) <= 31
    ensures r == Score(MatchCount(Winning(left), right))
    ensures r == 0 <==> forall i :: 0 <= i < |right| ==> !IsMatch(Winning(left), right[i])
    ensures 0 <= r <= I32_MAX
  {
    MatchCountZero(Winning(left), right);
    var winning: set<int> := {};
    var i := 0;
    while i < |left|
      invariant 0 <= i <= |left|
      invariant winning == Winning(left[..i])
    {
      WinningStep(left, i);
      var parsed := ParseI32(left[i]);
      if parsed.Some? {
        winning := winning + {parsed.value};
      }
      i := i + 1;
    }
    assert left[..i] == left;
    var exp := 0;
    var j := 0;
    while j < |right|
      invariant 0 <= j <= |right|
      invariant exp == MatchCount(winning, right[..j])
    {
      MatchCountStep(winning, right, j);
      var parsed := ParseI32(right[j]);
      if parsed.Some? && parsed.value in winning {
        exp := exp + 1;
      }
      j := j + 1;
    }
    assert right[..j] == right;
    if exp == 0 {
      return 0;
    }
    r := Pow2(exp - 1);
    Pow2Bound(exp - 1, 30);
    Pow2Thirty();
  }

  lemma WinningStep(left: seq<string>, i: nat)
    requires i < |left|
    ensures Winning(left[..i + 1]) ==
      Winning(left[..i]) + (if ParseI32(left[i]).Some? then {ParseI32(left[i]).value} else {})
  {
    assert left[..i + 1][..i] == left[..i];
  }

  lemma MatchCountStep(w: set<int>, right: seq<string>, j: nat)
    requires j < |right|
    ensures MatchCount(w, right[..j + 1]) == MatchCount(w, right[..j]) + (if IsMatch(w, right[j]) then 1 else 0)
  {
    assert right[..j + 1][..j] == right[..j];
  }

  lemma {:induction false} Pow2Bound(e: nat, bound: nat)
    requires e <= bound
    ensures Pow2(e) <= Pow2(bound)
  {
    if e < bound {
      Pow2Bound(e, bound - 1);
    }
  }

  /** The largest score `i32::pow` can return here, 2^30. */
  lemma Pow2Thirty()
    ensures Pow2(30) == 0x4000_0000
  {
    assert Pow2(1) == 2;
    assert Pow2(2) == 4;
    assert Pow2(3) == 8;
    assert Pow2(4) == 16;
    assert Pow2(5) == 32;
    assert Pow2(6) == 64;
    assert Pow2(7) == 128;
    assert Pow2(8) == 256;
    assert Pow2(9) == 512;
    assert Pow2(10) == 1024;
    assert Pow2(11) == 2048;
    assert Pow2(12) == 4096;
    assert Pow2(13) == 8192;
    assert Pow2(14) == 16384;
    assert Pow2(15) == 32768;
    assert Pow2(16) == 65536;
    assert Pow2(17) == 131072;
    assert Pow2(18) == 262144;
    assert Pow2(19) == 524288;
    assert Pow2(20) == 1048576;
    assert Pow2(21) == 2097152;
    assert Pow2(22) == 4194304;
    assert Pow2(23) == 8388608;
    assert Pow2(24) == 16777216;
    assert Pow2(25) == 33554432;
    assert Pow2(26) == 67108864;
    assert Pow2(27) == 134217728;
    assert Pow2(28) == 268435456;
    assert Pow2(29) == 536870912;
    assert Pow2(30) == 1073741824;
  }

  /** A card's score doubles with every further match. */
  lemma ScoreDoubles(k: nat)
    requires k >= 1
    ensures Score(k + 1) == 2 * Score(k)
  {
  }

  /** Repeated numbers you have count once per occurrence. */
  lemma {:induction false} MatchCountAppend(w: set<int>, a: seq<string>, b: seq<string>)
    ensures MatchCount(w, a + b) == MatchCount(w, a) + MatchCount(w, b)
  {
    if b != [] {
      MatchCountAppend(w, a, b[..|b| - 1]);
      assert (a + b)[..|a + b| - 1] == a + b[..|b| - 1];
    } else {
      assert a + b == a;
    }
  }

  /** Only which winning tokens occur matters, not their order or how often. */
  lemma LeftOrderIrrelevant(left1: seq<string>, left2: seq<string>, right: seq<string>)
    requires forall t :: t in left1 <==> t in left2
    ensures Score(MatchCount(Winning(left1), right)) == Score(MatchCount(Winning(left2), right))
  {
    assert Winning(left1) == Winning(left2) by {
      forall v ensures v in Winning(left1) <==> v in Winning(left2) {
        WinningMember(left1, v);
        WinningMember(left2, v);
        if v in Winning(left1) {
          var i :| 0 <= i < |left1| && ParseI32(left1[i]) == Some(v);
          assert left1[i] in left1;
          var j :| 0 <= j < |left2| && left2[j] == left1[i];
        }
        if v in Winning(left2) {
          var i :| 0 <= i < |left2| && ParseI32(left2[i]) == Some(v);
          assert left2[i] in left2;
          var j :| 0 <= j < |left1| && left1[j] == left2[i];
        }
      }
    }
  }

  /** The winning numbers of two lists of tokens put together. */
  lemma {:induction false} WinningAppend(a: seq<string>, b: seq<string>)
    ensures Winning(a + b) == Winning(a) + Winning(b)
  {
    if b == [] {
      assert a + b == a;
    } else {
      WinningAppend(a, b[..|b| - 1]);
      assert (a + b)[..|a + b| - 1] == a + b[..|b| - 1];
      assert (a + b)[|a + b| - 1] == b[|b| - 1];
      WinningLast(a + b);
      WinningLast(b);
    }
  }

  /** The value a left-hand token adds to the set: its number, or nothing. */
  function TokenValues(t: string): set<int> {
    match ParseI32(t)
    case Some(v) => {v}
    case None => {}
  }

  /** The last left-hand token adds its value to the set of the ones before it. */
  lemma WinningLast(left: seq<string>)
    requires left != []
    ensures Winning(left) == Winning(left[..|left| - 1]) + TokenValues(left[|left| - 1])
  {
  }

  /**
   * A left-hand token that is not a number, such as the empty piece between
   * two spaces, changes nothing wherever it stands.
   */
  lemma UnparsableWinningIgnored(left: seq<string>, t: string, i: nat)
    requires ParseI32(t) == None && i <= |left|
    ensures Winning(left[..i] + [t] + left[i..]) == Winning(left)
  {
    var front, back := left[..i], left[i..];
    assert Winning([t]) == {} by {
      assert [t][..0] == [];
    }
    WinningAppend(front, [t]);
    WinningAppend(front + [t], back);
    WinningAppend(front, back);
    assert front + back == left;
  }

  /** A right-hand token that is not a number never matches, wherever it stands. */
  lemma UnparsableMatchIgnored(w: set<int>, right: seq<string>, t: string, j: nat)
    requires ParseI32(t) == None && j <= |right|
    ensures MatchCount(w, right[..j] + [t] + right[j..]) == MatchCount(w, right)
  {
    MatchCountAppend(w, right[..j] + [t], right[j..]);
    MatchCountAppend(w, right[..j], [t]);
    MatchCountAppend(w, right[..j], right[j..]);
    assert right[..j] + right[j..] == right;
    assert [t][..0] == [];
  }

  /** The index of the last occurrence of `c` in `s`, if any. */
  function LastIndex(s: string, c: char): (r: Option<nat>)
    ensures r.None? <==> c !in s
    ensures r.Some? ==> r.value < |s| && s[r.value] == c && forall j :: r.value < j < |s| ==> s[j] != c
  {
    if s == [] then None
    else if s[|s| - 1] == c then Some(|s| - 1)
    else
      assert forall j :: 0 <= j < |s| - 1 ==> s[..|s| - 1][j] == s[j];
      LastIndex(s[..|s| - 1], c)
  }

  /** An occurrence with no later occurrence is the last one. */
  lemma LastIndexUnique(s: string, c: char, k: nat)
    requires k < |s| && s[k] == c && forall j :: k < j < |s| ==> s[j] != c
    ensures LastIndex(s, c) == Some(k)
  {
    assert c in s by { assert s[k] == c; }
  }

  const MissingMarkers := "Could not find : or | in the data!"

  /**
   * `get_idx_of_col_and_bar`: one pass over the line remembering where the
   * latest `:` and the latest `|` were seen.
   */
  method GetIdxOfColAndBar(data: string) returns (r: Result<(nat, nat), string>)
    ensures r.Ok? <==> ':' in data && '|' in data
    ensures r.Ok? ==> LastIndex(data, ':') == Some(r.value.0) && LastIndex(data, '|') == Some(r.value.1)
    ensures r.Err? ==> r.error == MissingMarkers
  {
    var colIdx: Option<nat> := None;
    var barIdx: Option<nat> := None;
    var i := 0;
    while i < |data|
      invariant 0 <= i <= |data|
      invariant colIdx == LastIndex(data[..i], ':')
      invariant barIdx == LastIndex(data[..i], '|')
    {
      assert data[..i + 1][..i] == data[..i];
      if data[i] == ':' {
        colIdx := Some(i);
      } else if data[i] == '|' {
        barIdx := Some(i);
      }
      i := i + 1;
    }
    assert data[..i] == data;
    if colIdx.Some? && barIdx.Some? {
      return Ok((colIdx.value, barIdx.value));
    }
    return Err(MissingMarkers);
  }

  predicate HasMarkers(line: string) {
    ':' in line && '|' in line
  }

  /** The winning tokens, between the last `:` and the last `|`, split on single spaces. */
  function LeftTokens(line: string): seq<string>
    requires HasMarkers(line) && LastIndex(line, ':').value < LastIndex(line, '|').value
  {
    Split(line[LastIndex(line, ':').value + 1..LastIndex(line, '|').value], ' ')
  }

  /** The tokens you have, after the last `|`, split on single spaces. */
  function RightTokens(line: string): seq<string>
    requires HasMarkers(line)
  {
    Split(line[LastIndex(line, '|').value + 1..], ' ')
  }

  /**
   * What a line with both markers needs so that `run` does not panic on it:
   * the slice `col+1..bar` must be in order, and the score must fit `i32::pow`.
   */
  predicate LineFits(line: string)
    requires HasMarkers(line)
  {
    LastIndex(line, ':').value < LastIndex(line, '|').value &&
    MatchCount(Winning(LeftTokens(line)), RightTokens(line)) <= 31
  }

  /** A line `run` can score: it has both markers and fits. */
  predicate Scorable(line: string) {
    HasMarkers(line) && LineFits(line)
  }

  function LineScore(line: string): int
    requires Scorable(line)
  {
    Score(MatchCount(Winning(LeftTokens(line)), RightTokens(line)))
  }

  /** Every line `run` reaches (all lines before it have both markers) fits. */
  predicate ReachedLinesFit(lines: seq<string>) {
    forall i :: 0 <= i < |lines| && (forall j :: 0 <= j <= i ==> HasMarkers(lines[j])) ==> LineFits(lines[i])
  }

  function SumScores(lines: seq<string>): int
    requires forall i :: 0 <= i < |lines| ==> Scorable(lines[i])
  {
    if lines == [] then 0
    else SumScores(lines[..|lines| - 1]) + LineScore(lines[|lines| - 1])
  }

  const MissingMarkersInLine := "failure in extracting colon and bar from data line"

  /**
   * `run`: the sum of the card scores, or an error as soon as a line lacks a
   * `:` or a `|`. The running sum is an unbounded integer here.
   */
  method Run(lines: seq<string>) returns (r: Result<int, string>)
    requires ReachedLinesFit(lines)
    ensures r.Ok? <==> forall i :: 0 <= i < |lines| ==> HasMarkers(lines[i])
    ensures r.Ok? ==> r.value == SumScores(lines)
    ensures r.Err? ==> r.error == MissingMarkersInLine
  {
    var sum := 0;
    var i := 0;
    while i < |lines|
      invariant 0 <= i <= |lines|
      invariant forall j :: 0 <= j < i ==> Scorable(lines[j])
      invariant sum == SumScores(lines[..i])
    {
      var idxs := GetIdxOfColAndBar(lines[i]);
      if idxs.Err? {
        return Err(MissingMarkersInLine);
      }
      var line := lines[i];
      var colIdx, barIdx := idxs.value.0, idxs.value.1;
      assert Scorable(line);
      var left, right := Split(line[colIdx + 1..barIdx], ' '), Split(line[barIdx + 1..], ' ');
      TokensAt(line, colIdx, barIdx);
      var score := GetResult(left, right);
      SumScoresStep(lines, i);
      sum := sum + score;
      i := i + 1;
    }
    assert lines[..i] == lines;
    r := Ok(sum);
  }

  lemma TokensAt(line: string, col: nat, bar: nat)
    requires LastIndex(line, ':') == Some(col) && LastIndex(line, '|') == Some(bar) && col < bar
    ensures HasMarkers(line)
    ensures LeftTokens(line) == Split(line[col + 1..bar], ' ')
    ensures RightTokens(line) == Split(line[bar + 1..], ' ')
  {
  }

  lemma SumScoresStep(lines: seq<string>, i: nat)
    requires i < |lines|
    requires forall j :: 0 <= j <= i ==> Scorable(lines[j])
    ensures SumScores(lines[..i + 1]) == SumScores(lines[..i]) + LineScore(lines[i])
  {
    assert lines[..i + 1][..i] == lines[..i];
  }

  /** The total over several cards is the sum of the totals of their parts. */
  lemma {:induction false} SumScoresAppend(a: seq<string>, b: seq<string>)
    requires forall i :: 0 <= i < |a| ==> Scorable(a[i])
    requires forall i :: 0 <= i < |b| ==> Scorable(b[i])
    ensures forall i :: 0 <= i < |a + b| ==> Scorable((a + b)[i])
    ensures SumScores(a + b) == SumScores(a) + SumScores(b)
  {
    if b == [] {
      assert a + b == a;
    } else {
      SumScoresAppend(a, b[..|b| - 1]);
      assert (a + b)[..|a + b| - 1] == a + b[..|b| - 1];
    }
  }
}

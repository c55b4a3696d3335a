/**
 * The pieces of Rust's standard library that the solutions lean on, stated
 * over `string` (a `seq<char>`): `str::split` on one character, the
 * `FromStr` parsers of `i32` and `u32`, ASCII decimal digits, and the
 * byte length `str::len` of a string's UTF-8 encoding.
 */
module RustText {
  import opened Wrappers

  const I32_MIN: int := -0x8000_0000
  const I32_MAX: int := 0x7FFF_FFFF
  const U32_MAX: int := 0xFFFF_FFFF

  /** The values of Rust's `i32` and `u32`. */
  type I32 = x: int | I32_MIN <= x <= I32_MAX
  type U32 = x: int | 0 <= x <= U32_MAX

  /** `char::is_digit(10)`: only the ASCII digits have a radix-10 value. */
  predicate IsAsciiDigit(c: char) {
    '0' <= c <= '9'
  }

  predicate AllDigits(s: string) {
    forall i :: 0 <= i < |s| ==> IsAsciiDigit(s[i])
  }

  function DigitValue(c: char): (d: nat)
    requires IsAsciiDigit(c)
    ensures d < 10
  {
    (c as int) - ('0' as int)
  }

  /** The base-10 value of a digit string; leading zeros are allowed. */
  function DigitsValue(s: string): nat
    requires AllDigits(s)
  {
    if s == [] then 0 else DigitsValue(s[..|s| - 1]) * 10 + DigitValue(s[|s| - 1])
  }

  /**
   * `s.parse::<i32>()`: an optional `+` or `-`, then at least one ASCII digit,
   * and a value that fits in 32 signed bits. Anything else is an error.
   */
  function ParseI32(s: string): (r: Option<int>)
    ensures r.Some? ==> I32_MIN <= r.value <= I32_MAX
    ensures r.Some? ==> s != [] && ' ' !in s
  {
    if s == [] then None
    else
      var negative := s[0] == '-';
      var digits := if s[0] == '-' || s[0] == '+' then s[1..] else s;
      if digits == [] || !AllDigits(digits) then None
      else
        var v: int := if negative then 0 - DigitsValue(digits) as int else DigitsValue(digits);
        if I32_MIN <= v <= I32_MAX then
          assert forall i :: 0 <= i < |s| ==> s[i] != ' ' by {
            forall i | 0 <= i < |s| ensures s[i] != ' ' {
              if s[0] == '-' || s[0] == '+' {
                if i > 0 { assert s[i] == digits[i - 1]; }
              } else {
                assert s[i] == digits[i];
              }
            }
          }
          Some(v)
        else None
  }

  /**
   * `s.parse::<u32>()`: an optional `+` (a `-` is rejected), then at least one
   * ASCII digit, and a value below 2^32.
   */
  function ParseU32(s: string): (r: Option<int>)
    ensures r.Some? ==> 0 <= r.value <= U32_MAX
    ensures r.Some? ==> s != []
  {
    if s == [] then None
    else
      var digits := if s[0] == '+' then s[1..] else s;
      if digits == [] || !AllDigits(digits) || DigitsValue(digits) > U32_MAX then None
      else Some(DigitsValue(digits))
  }

  /**
   * `s.split(sep)`: the pieces between occurrences of `sep`, keeping the empty
   * pieces that repeated, leading or trailing separators produce.
   */
  function Split(s: string, sep: char): (r: seq<string>)
    ensures |r| >= 1
    ensures forall i :: 0 <= i < |r| ==> sep !in r[i]
  {
    if s == [] then [""]
    else if s[0] == sep then [""] + Split(s[1..], sep)
    else
      var rest := Split(s[1..], sep);
      [[s[0]] + rest[0]] + rest[1..]
  }

  /** The inverse of `Split`: the pieces glued back together with `sep`. */
  function Join(pieces: seq<string>, sep: char): string
  {
    if pieces == [] then ""
    else if |pieces| == 1 then pieces[0]
    else pieces[0] + [sep] + Join(pieces[1..], sep)
  }

  /** Splitting loses nothing: joining the pieces gives the input back. */
  lemma {:induction false} JoinSplit(s: string, sep: char)
    ensures Join(Split(s, sep), sep) == s
  {
    if s == [] {
    } else if s[0] == sep {
      JoinSplit(s[1..], sep);
      var rest := Split(s[1..], sep);
      assert Split(s, sep) == [""] + rest;
      assert ([""] + rest)[1..] == rest;
    } else {
      JoinSplit(s[1..], sep);
      var rest := Split(s[1..], sep);
      var pieces := [[s[0]] + rest[0]] + rest[1..];
      assert Split(s, sep) == pieces;
      if |rest| == 1 {
        assert Join(pieces, sep) == [s[0]] + rest[0];
      } else {
        assert pieces[1..] == rest[1..];
        assert Join(rest, sep) == rest[0] + [sep] + Join(rest[1..], sep);
      }
    }
  }

  /** A string without the separator is a single piece. */
  lemma {:induction false} SplitWithoutSeparator(s: string, sep: char)
    requires sep !in s
    ensures Split(s, sep) == [s]
  {
    if s != [] {
      SplitWithoutSeparator(s[1..], sep);
      assert [s[0]] + s[1..] == s;
    }
  }

  /** A string of digits with no sign parses as its decimal value when that fits. */
  lemma ParseI32Digits(s: string)
    requires s != [] && AllDigits(s) && DigitsValue(s) <= I32_MAX
    ensures ParseI32(s) == Some(DigitsValue(s))
  {
  }

  /** The empty piece that repeated spaces produce is never a number. */
  lemma EmptyIsNotANumber()
    ensures ParseI32("") == None && ParseU32("") == None
  {
  }

  /** The number of bytes UTF-8 takes for `c`: one below 0x80, two below 0x800, three below 0x10000, else four. */
  function Utf8Width(c: char): (w: nat)
    ensures 1 <= w <= 4
    ensures w == 1 <==> (c as int) < 0x80
  {
    if (c as int) < 0x80 then 1
    else if (c as int) < 0x800 then 2
    else if (c as int) < 0x1_0000 then 3
    else 4
  }

  /** `str::len`: the length in bytes of the UTF-8 encoding of `s`. */
  function Utf8Len(s: string): (n: nat)
    ensures |s| <= n <= 4 * |s|
  {
    if s == [] then 0 else Utf8Width(s[0]) + Utf8Len(s[1..])
  }

  /** The byte length is the character count exactly when every character is ASCII. */
  lemma {:induction false} Utf8LenAscii(s: string)
    ensures Utf8Len(s) == |s| <==> forall k :: 0 <= k < |s| ==> (s[k] as int) < 0x80
  {
    if s != [] {
      Utf8LenAscii(s[1..]);
      assert forall k :: 1 <= k < |s| ==> s[1..][k - 1] == s[k];
      if forall k :: 0 <= k < |s| ==> (s[k] as int) < 0x80 {
        assert forall k :: 0 <= k < |s[1..]| ==> (s[1..][k] as int) < 0x80 by {
          forall k | 0 <= k < |s[1..]| ensures (s[1..][k] as int) < 0x80 {
            assert s[1..][k] == s[k + 1];
          }
        }
      }
    }
  }

  /** A part value with an accented letter: two characters, three bytes. */
  lemma AccentedLength()
    ensures |['\U{E9}', '1']| == 2 && Utf8Len(['\U{E9}', '1']) == 3
  {
    assert ['\U{E9}', '1'][1..] == ['1'];
    assert ['1'][1..] == [];
  }
}

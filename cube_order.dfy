/**
 * The cube sets of `src/two.rs`: three `u32` counts with a hand-written
 * equality and a hand-written total order that compares red, then green,
 * then blue.
 */
module CubeOrder {
  import opened Wrappers
  import opened RustText
  import opened Ordering

  datatype CubeSet = CubeSet(red: U32, blue: U32, green: U32)

  /** Lexicographic order on (red, green, blue). */
  predicate LexLess(a: CubeSet, b: CubeSet) {
    a.red < b.red || (a.red == b.red && (a.green < b.green || (a.green == b.green && a.blue < b.blue)))
  }

  /** `eq`: all three counts agree, which makes it the equality of cube sets. */
  predicate Eq(a: CubeSet, b: CubeSet)
    ensures Eq(a, b) <==> a == b
  {
    a.red == b.red && a.green == b.green && a.blue == b.blue
  }

  /** `cmp`: red decides, then green, then blue. */
  function Cmp(a: CubeSet, b: CubeSet): (o: Ordering)
    ensures o == Less <==> LexLess(a, b)
    ensures o == Equal <==> Eq(a, b)
    ensures o == Greater <==> LexLess(b, a)
  {
    CmpInt(a.red, b.red).Then(CmpInt(a.green, b.green)).Then(CmpInt(a.blue, b.blue))
  }

  /** `partial_cmp`: always defined, and consistent with `eq` and the lexicographic order. */
  function PartialCmp(a: CubeSet, b: CubeSet): (r: Option<Ordering>)
    ensures r.Some? && (r.value == Equal <==> a == b) && (r.value == Less <==> LexLess(a, b))
  {
    Some(Cmp(a, b))
  }

  /** `a < b`. */
  predicate Lt(a: CubeSet, b: CubeSet)
    ensures Lt(a, b) <==> LexLess(a, b)
  {
    PartialCmp(a, b) == Some(Less)
  }

  /** `a >= b`. */
  predicate Ge(a: CubeSet, b: CubeSet)
    ensures Ge(a, b) <==> !LexLess(a, b)
  {
    PartialCmp(a, b) == Some(Greater) || PartialCmp(a, b) == Some(Equal)
  }

  /** `partial_cmp` always answers, and answers `Equal` exactly for equal sets. */
  lemma PartialCmpIsTotal(a: CubeSet, b: CubeSet)
    ensures PartialCmp(a, b).Some?
    ensures PartialCmp(a, b) == Some(Equal) <==> Eq(a, b)
    ensures Lt(a, b) <==> LexLess(a, b)
    ensures Ge(a, b) <==> !LexLess(a, b)
  {
  }

  /** `cmp` is a total order consistent with `eq`. */
  lemma CmpIsTotalOrder(a: CubeSet, b: CubeSet, c: CubeSet)
    ensures Cmp(a, a) == Equal
    ensures Cmp(b, a) == Cmp(a, b).Reverse()
    ensures Cmp(a, b) == Equal ==> a == b
    ensures Cmp(a, b) != Greater && Cmp(b, c) != Greater ==> Cmp(a, c) != Greater
    ensures Cmp(a, b) == Less && Cmp(b, c) == Less ==> Cmp(a, c) == Less
  {
  }

  /** The cap of the tests: 12 red, 13 blue, 14 green. */
  const TestCap: CubeSet := CubeSet(12, 13, 14)

  /** Red alone decides: the cap is below (16 red, 9 blue, 17 green) despite its larger blue. */
  lemma LargerThanCap()
    ensures Lt(TestCap, CubeSet(16, 9, 17))
    ensures TestCap.blue > CubeSet(16, 9, 17).blue
  {
  }

  lemma SmallerThanCap()
    ensures Ge(TestCap, CubeSet(10, 9, 11))
  {
  }

  /** Equal red and green: blue decides. */
  lemma EqualToCap()
    ensures Ge(TestCap, CubeSet(12, 9, 14))
    ensures !Eq(TestCap, CubeSet(12, 9, 14))
  {
  }
}

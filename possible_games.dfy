/**
 * The cap test of `calculate_val` in `src/solutions/two.rs` set beside a
 * per-colour test: a game is possible when no colour was drawn more often
 * than the bag holds cubes of it.
 */
module PossibleGames {
  import opened CubeGame

  /** No colour was drawn more often than the cap holds cubes of it. */
  predicate WithinCap(cs: CubeSet) {
    cs.red <= GlobalCap.red && cs.green <= GlobalCap.green && cs.blue <= GlobalCap.blue
  }

  /**
   * The order is not the per-colour test: far more blue and green than the
   * cap still counts, and the cap itself, every colour of which fits, does not.
   */
  lemma CapOrderIsNotPerColour()
    ensures Lt(CubeSet(11, 1000, 1000), GlobalCap) && !WithinCap(CubeSet(11, 1000, 1000))
    ensures WithinCap(GlobalCap) && !Lt(GlobalCap, GlobalCap)
  {
  }

  /** How many of the first `n` sets fit the cap colour by colour. */
  function CountWithin(sets: seq<CubeSet>, n: nat): (k: nat)
    requires n <= |sets|
    ensures k <= n
  {
    if n == 0 then 0 else CountWithin(sets, n - 1) + if WithinCap(sets[n - 1]) then 1 else 0
  }

  /** The count reaches `n` exactly when every set fits. */
  lemma {:induction false} CountWithinAll(sets: seq<CubeSet>, n: nat)
    requires n <= |sets|
    ensures CountWithin(sets, n) == n <==> forall i :: 0 <= i < n ==> WithinCap(sets[i])
  {
    if n > 0 {
      CountWithinAll(sets, n - 1);
    }
  }

  /** A set that fits the cap is below it in the order or is the cap itself. */
  lemma WithinCapIsNotAbove(cs: CubeSet)
    ensures WithinCap(cs) ==> Lt(cs, GlobalCap) || cs == GlobalCap
  {
  }

  /** Where no line is exactly the cap, every line that fits is among those counted. */
  lemma {:induction false} CountWithinAtMostCountBelow(sets: seq<CubeSet>, n: nat)
    requires n <= |sets|
    requires forall i :: 0 <= i < n ==> sets[i] != GlobalCap
    ensures CountWithin(sets, n) <= CountBelow(sets, n)
  {
    if n > 0 {
      CountWithinAtMostCountBelow(sets, n - 1);
      WithinCapIsNotAbove(sets[n - 1]);
    }
  }
}

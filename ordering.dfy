/** `std::cmp::Ordering`, `Ord::cmp` on integers and `Ordering::then`. */
module Ordering {

  datatype Ordering = Less | Equal | Greater {

    /** `self.then(other)`: `other` decides only when `self` is `Equal`. */
    function Then(other: Ordering): (r: Ordering)
      ensures r == Equal <==> this == Equal && other == Equal
      ensures this != Equal ==> r == this
    {
      if this == Equal then other else this
    }

    /** `Ordering::reverse`. */
    function Reverse(): Ordering
    {
      match this
      case Less => Greater
      case Equal => Equal
      case Greater => Less
    }
  }

  /** `a.cmp(&b)` on machine integers, which compares their values. */
  function CmpInt(a: int, b: int): (o: Ordering)
    ensures o == Less <==> a < b
    ensures o == Equal <==> a == b
    ensures o == Greater <==> a > b
  {
    if a < b then Less else if a == b then Equal else Greater
  }
}

/**
 * What several modules share: the wrapping 32-bit clock, an optional value and
 * the size of a subset.
 */
module Basics {

  const WRAP: nat := 0x1_0000_0000
  const HALF: nat := 0x8000_0000

  /** Unsigned 32-bit `now - since`. */
  function Age(now: nat, since: nat): nat { (now - since) % WRAP }

  datatype Option<T> = None | Some(value: T)

  lemma {:induction false} SubsetCard(a: set<nat>, b: set<nat>)
    requires a <= b
    ensures |a| <= |b|
    decreases |a|
  {
    if a != {} {
      var x :| x in a;
      SubsetCard(a - {x}, b - {x});
    }
  }
}

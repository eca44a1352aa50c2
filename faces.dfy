/** Face descriptors and the distance between them. */
module Faces {

  /** A face descriptor: the fixed-length vector of numbers the detector produces. */
  type Descriptor = seq<real>

  /** The square of the Euclidean distance between two descriptors of the same length. */
  function SquaredDistance(a: Descriptor, b: Descriptor): (d: real)
    requires |a| == |b|
    ensures d >= 0.0
    decreases |a|
  {
    if a == [] then 0.0
    else (a[0] - b[0]) * (a[0] - b[0]) + SquaredDistance(a[1..], b[1..])
  }

  /** The distance does not depend on the order of its arguments. */
  lemma {:induction false} DistanceSymmetric(a: Descriptor, b: Descriptor)
    requires |a| == |b|
    ensures SquaredDistance(a, b) == SquaredDistance(b, a)
    decreases |a|
  {
    if a != [] {
      DistanceSymmetric(a[1..], b[1..]);
      assert (a[0] - b[0]) * (a[0] - b[0]) == (b[0] - a[0]) * (b[0] - a[0]);
    }
  }

  /** Every descriptor is at distance zero from itself. */
  lemma {:induction false} DistanceToSelf(a: Descriptor)
    ensures SquaredDistance(a, a) == 0.0
    decreases |a|
  {
    if a != [] {
      DistanceToSelf(a[1..]);
    }
  }
}

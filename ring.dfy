/**
 * Ring geometry of the Chord identifier space (src/chord/util.go:13-41).
 *
 * Identifiers live on a ring of `RingSize` positions. The three predicates
 * decide whether `x` lies on the clockwise arc from `a` to `b`, handling
 * wrap-around by shifting one bound by `RingSize`, exactly as the Go code does.
 * Each is proved equal to an independent definition based on clockwise
 * distance.
 */
module RingGeometry {
  import opened Arithmetic

  /** Go requires the untyped constant `ringSize` to be representable as an
      `int` (it is added to an `int`) and to be a non-zero `uint64` divisor. */
  type Modulus = m: int | 0 < m < 0x8000_0000_0000_0000 witness 1

  /** The ring size; its value is declared outside the modelled files. */
  const RingSize: Modulus

  predicate InRing(x: int) {
    0 <= x < RingSize
  }

  /** Number of clockwise steps from `from` to `to`. */
  function Distance(from: int, to: int): (d: nat)
    requires InRing(from) && InRing(to)
    ensures d < RingSize
    ensures (from + d) % RingSize == to
    ensures d == 0 <==> from == to
  {
    if from <= to then
      ModOfSmall(to, RingSize);
      to - from
    else
      ModUnique(to + RingSize, RingSize, 1, to);
      to - from + RingSize
  }

  /** Reference definition of the open arc (a, b): strictly after `a` and
      strictly before `b` walking clockwise. For a == b it is empty. */
  predicate InOpenArc(x: int, a: int, b: int)
    requires InRing(x) && InRing(a) && InRing(b)
  {
    0 < Distance(a, x) < Distance(a, b)
  }

  /** Reference definition of the half-open arc [a, b). */
  predicate InLeftClosedArc(x: int, a: int, b: int)
    requires InRing(x) && InRing(a) && InRing(b)
  {
    Distance(a, x) < Distance(a, b)
  }

  /** Reference definition of the half-open arc (a, b], as the doc comment of
      `BetweenRightIncl` describes it. */
  predicate InRightClosedArc(x: int, a: int, b: int)
    requires InRing(x) && InRing(a) && InRing(b)
  {
    0 < Distance(a, x) <= Distance(a, b)
  }

  /** `Between`: is x in (a, b)? */
  function Between(x: int, a: int, b: int): (r: bool)
    ensures InRing(x) && InRing(a) && InRing(b) ==> (r <==> InOpenArc(x, a, b))
  {
    var (a', b') :=
      if b < a && x > b then (a, b + RingSize)
      else if b < a && x < b then (a - RingSize, b)
      else (a, b);
    x > a' && x < b'
  }

  /** `BetweenRightIncl`, documented as (a, b]. On a wrapping arc (b < a)
      neither shift fires at x == b, so the right endpoint is excluded there. */
  function BetweenRightIncl(x: int, a: int, b: int): (r: bool)
    ensures InRing(x) && InRing(a) && InRing(b) ==>
      (r <==> InRightClosedArc(x, a, b) && !(b < a && x == b))
  {
    var (a', b') :=
      if b < a && x > b then (a, b + RingSize)
      else if b < a && x < b then (a - RingSize, b)
      else (a, b);
    x > a' && x <= b'
  }

  /** `BetweenLeftIncl`: is x in [a, b)? */
  function BetweenLeftIncl(x: int, a: int, b: int): (r: bool)
    ensures InRing(x) && InRing(a) && InRing(b) ==> (r <==> InLeftClosedArc(x, a, b))
  {
    var (a', b') :=
      if b < a && x > b then (a, b + RingSize)
      else if b < a && x < b then (a - RingSize, b)
      else (a, b);
    x >= a' && x < b'
  }

  /** Corrected right-closed test: (a, b] including b also on a wrapping arc. */
  function BetweenRightInclCorrected(x: int, a: int, b: int): (r: bool)
    ensures InRing(x) && InRing(a) && InRing(b) ==> (r <==> InRightClosedArc(x, a, b))
  {
    BetweenRightIncl(x, a, b) || (b < a && x == b)
  }

  // ---------------------------------------------------------------------
  // Properties of the three predicates

  /** Non-wrapping arc: no shift happens and (a, b) is the integer interval. */
  lemma BetweenNonWrapping(x: int, a: int, b: int)
    requires InRing(x) && InRing(a) && InRing(b) && a < b
    ensures Between(x, a, b) <==> a < x < b
  {
  }

  /** Wrapping arc: (a, b) is everything after a or before b. */
  lemma BetweenWrapping(x: int, a: int, b: int)
    requires InRing(x) && InRing(a) && InRing(b) && b < a
    ensures Between(x, a, b) <==> x > a || x < b
  {
  }

  /** The arc from a point to itself is empty for all three predicates,
      not the whole ring. */
  lemma DegenerateArcIsEmpty(x: int, a: int)
    ensures !Between(x, a, a) && !BetweenRightIncl(x, a, a) && !BetweenLeftIncl(x, a, a)
  {
  }

  /** For distinct a and b, the open predicate partitions the ring: exactly one
      of x in (a, b), x == a, x == b, x in (b, a) holds. */
  lemma {:induction false} OpenArcsPartitionRing(x: int, a: int, b: int)
    requires InRing(x) && InRing(a) && InRing(b) && a != b
    ensures Between(x, a, b) || x == a || x == b || Between(x, b, a)
    ensures !(Between(x, a, b) && Between(x, b, a))
    ensures Between(x, a, b) || Between(x, b, a) ==> x != a && x != b
  {
    assert Distance(a, b) + Distance(b, a) == RingSize;
    if x != a && x != b {
      assert Distance(a, x) + Distance(x, b) == Distance(a, b)
          || Distance(b, x) + Distance(x, a) == Distance(b, a);
    }
  }

  /** Points strictly inside the arc are accepted by all three variants. */
  lemma InteriorAgreement(x: int, a: int, b: int)
    requires Between(x, a, b)
    ensures BetweenRightIncl(x, a, b) && BetweenLeftIncl(x, a, b)
  {
  }

  /** The left endpoint belongs to [a, b) whenever the arc is not degenerate. */
  lemma LeftEndpointIncluded(a: int, b: int)
    requires InRing(a) && InRing(b) && a != b
    ensures BetweenLeftIncl(a, a, b)
  {
  }

  /** The right endpoint belongs to `BetweenRightIncl(_, a, b)` exactly when
      the arc does not wrap: it is excluded whenever b < a. */
  lemma RightEndpoint(a: int, b: int)
    ensures BetweenRightIncl(b, a, b) <==> a < b
  {
  }

  /** Concrete witness of the discrepancy with the (a, b] doc comment:
      on the arc from RingSize - 1 to 0 the endpoint 0 is rejected,
      although 0 is one clockwise step from RingSize - 1. */
  lemma RightInclMissesWrappedEndpoint()
    requires RingSize > 1
    ensures InRightClosedArc(0, RingSize - 1, 0)
    ensures !BetweenRightIncl(0, RingSize - 1, 0)
  {
  }

  /** The corrected predicate differs from the code only at a wrapped endpoint. */
  lemma CorrectedAgreesOffEndpoint(x: int, a: int, b: int)
    requires InRing(x) && InRing(a) && InRing(b)
    ensures BetweenRightInclCorrected(x, a, b) != BetweenRightIncl(x, a, b)
        <==> b < a && x == b
  {
  }
}

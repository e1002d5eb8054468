/** One-dimensional interval arithmetic used when a block is dropped. */
module Geometry {

  /** The closed horizontal interval [left, right]. */
  datatype Span = Span(left: real, right: real)

  function Width(a: Span): real
  {
    a.right - a.left
  }

  /** `p` lies in the closed interval. */
  predicate Holds(a: Span, p: real)
  {
    a.left <= p <= a.right
  }

  /** `p` lies strictly inside the interval. */
  predicate Inside(a: Span, p: real)
  {
    a.left < p < a.right
  }

  function Max(a: real, b: real): (m: real)
    ensures m >= a && m >= b
    ensures m == a || m == b
  {
    if a >= b then a else b
  }

  function Min(a: real, b: real): (m: real)
    ensures m <= a && m <= b
    ensures m == a || m == b
  {
    if a <= b then a else b
  }

  function Abs(x: real): (r: real)
    ensures r >= 0.0
    ensures r == x || r == -x
  {
    if x < 0.0 then -x else x
  }

  /** The overlap of two intervals: from the larger left edge to the smaller
      right edge. It is exactly their intersection, and it is never wider
      than either of them. */
  function Overlap(a: Span, b: Span): (o: Span)
    ensures forall p :: Holds(o, p) <==> Holds(a, p) && Holds(b, p)
    ensures Width(o) <= Width(a) && Width(o) <= Width(b)
  {
    Span(Max(a.left, b.left), Min(a.right, b.right))
  }

  /** The overlap has positive width exactly when the two intervals share an
      interior point. */
  lemma OverlapPositiveIff(a: Span, b: Span)
    ensures Width(Overlap(a, b)) > 0.0 <==> exists p :: Inside(a, p) && Inside(b, p)
  {
    var o := Overlap(a, b);
    if Width(o) > 0.0 {
      var mid := (o.left + o.right) / 2.0;
      assert Inside(a, mid) && Inside(b, mid);
    } else {
      forall p | Inside(a, p)
        ensures !Inside(b, p)
      {
      }
    }
  }
}

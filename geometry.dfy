/** The small amount of plane geometry the arena game needs: SFML's
    `sf::Vector2f` and `sf::FloatRect` over the reals, the rectangle overlap
    test used for players, the clamp-to-rectangle circle test used for the
    boomerang, velocity reflection, and `length`/`normalize`.

    `std::sqrt` is a foreign call: it is passed in as a parameter `sqrt`
    whose only promise (`IsSqrt`) is that it returns the non-negative square
    root of a non-negative argument. */
module Geometry {

  datatype Option<T> = None | Some(value: T)

  datatype Vec = Vec(x: real, y: real)

  const Zero := Vec(0.0, 0.0)

  function Add(a: Vec, b: Vec): Vec { Vec(a.x + b.x, a.y + b.y) }

  function Sub(a: Vec, b: Vec): Vec { Vec(a.x - b.x, a.y - b.y) }

  function Scale(a: Vec, k: real): Vec { Vec(a.x * k, a.y * k) }

  function Neg(a: Vec): Vec { Vec(-a.x, -a.y) }

  function Dot(a: Vec, b: Vec): real { a.x * b.x + a.y * b.y }

  function Min(a: real, b: real): real { if a < b then a else b }

  function Max(a: real, b: real): real { if a < b then b else a }

  /** `sf::FloatRect`: top-left corner and size. */
  datatype Rect = Rect(left: real, top: real, width: real, height: real) {
    function Right(): real { left + width }
    function Bottom(): real { top + height }
  }

  /** `getGlobalBounds()` of an unrotated, unscaled shape whose origin is the
      centre of its `w` by `h` box and whose position is `c`. */
  function Centered(c: Vec, w: real, h: real): (r: Rect)
    ensures r.width == w && r.height == h
    ensures r.left + r.width / 2.0 == c.x && r.top + r.height / 2.0 == c.y
  {
    Rect(c.x - w / 2.0, c.y - h / 2.0, w, h)
  }

  /** `FloatRect::findIntersection(...)` yields a value: the overlap of the
      two boxes has strictly positive width and height. */
  predicate Intersects(a: Rect, b: Rect) {
    Max(a.left, b.left) < Min(a.Right(), b.Right()) &&
    Max(a.top, b.top) < Min(a.Bottom(), b.Bottom())
  }

  /** A point strictly inside the rectangle. */
  predicate Inside(p: Vec, r: Rect) {
    r.left < p.x < r.Right() && r.top < p.y < r.Bottom()
  }

  /** A point of the closed rectangle. */
  predicate InRect(p: Vec, r: Rect) {
    r.left <= p.x <= r.Right() && r.top <= p.y <= r.Bottom()
  }

  /** The overlap test is the same whichever box is asked first. */
  lemma IntersectsSymmetric(a: Rect, b: Rect)
    ensures Intersects(a, b) == Intersects(b, a)
  {
  }

  /** Two boxes of non-negative size overlap exactly when some point lies
      strictly inside both; the test does not depend on the box order. */
  lemma IntersectsIffCommonInterior(a: Rect, b: Rect)
    ensures Intersects(a, b) <==> exists p :: Inside(p, a) && Inside(p, b)
  {
    if Intersects(a, b) {
      var p := Vec((Max(a.left, b.left) + Min(a.Right(), b.Right())) / 2.0,
                   (Max(a.top, b.top) + Min(a.Bottom(), b.Bottom())) / 2.0);
      assert Inside(p, a) && Inside(p, b);
    }
  }

  /** `std::max(lo, std::min(v, hi))`. */
  function Clamp(v: real, lo: real, hi: real): (c: real)
    ensures lo <= hi ==> lo <= c <= hi
    ensures lo <= v <= hi ==> c == v
  {
    Max(lo, Min(v, hi))
  }

  /** The point of `r` closest to `p`, by clamping each coordinate
      (boomerang.cpp, lines 62-63). */
  function ClosestPoint(p: Vec, r: Rect): (c: Vec)
    ensures 0.0 <= r.width && 0.0 <= r.height ==> InRect(c, r)
    ensures InRect(p, r) ==> c == p
  {
    Vec(Clamp(p.x, r.left, r.Right()), Clamp(p.y, r.top, r.Bottom()))
  }

  function DistSq(a: Vec, b: Vec): real {
    Dot(Sub(a, b), Sub(a, b))
  }

  /** Squares are kept behind a function of their own: the solver handles
      `Sq(a)` as one term and only unfolds it where a proof needs it. */
  function Sq(a: real): real { a * a }

  lemma MulPos(x: real, y: real)
    requires 0.0 < x && 0.0 < y
    ensures 0.0 < x * y
  {
  }

  lemma SqPos(a: real)
    requires a != 0.0
    ensures 0.0 < Sq(a)
  {
    calc {
      Sq(a);
      == a * a;
      > { if a < 0.0 { MulPos(-a, -a); } else { MulPos(a, a); } }
      0.0;
    }
  }

  lemma SqNonNeg(a: real)
    ensures 0.0 <= Sq(a)
  {
    if a != 0.0 { SqPos(a); }
  }

  lemma SqMono(a: real, b: real)
    requires 0.0 <= a <= b
    ensures Sq(a) <= Sq(b)
  {
    calc { Sq(a); == a * a; <= a * b; <= b * b; == Sq(b); }
  }

  lemma SqStrictMono(a: real, b: real)
    requires 0.0 <= a < b
    ensures Sq(a) < Sq(b)
  {
    calc { Sq(a); == a * a; <= a * b; < b * b; == Sq(b); }
  }

  lemma DotSelf(v: Vec)
    ensures Dot(v, v) == Sq(v.x) + Sq(v.y)
  {
  }

  lemma DotSelfNonNeg(v: Vec)
    ensures 0.0 <= Dot(v, v)
    ensures Dot(v, v) == 0.0 <==> v == Zero
  {
    DotSelf(v);
    SqNonNeg(v.x);
    SqNonNeg(v.y);
    if v.x != 0.0 {
      SqPos(v.x);
    } else if v.y != 0.0 {
      SqPos(v.y);
    }
  }

  /** Along one axis, clamping into `[lo, hi]` gives the nearest coordinate. */
  lemma AxisNearest(p: real, lo: real, hi: real, q: real)
    requires lo <= q <= hi
    ensures Sq(p - Clamp(p, lo, hi)) <= Sq(p - q)
  {
    if p < lo {
      SqMono(lo - p, q - p);
      assert Sq(p - lo) == Sq(lo - p);
      assert Sq(p - q) == Sq(q - p);
    } else if hi < p {
      SqMono(p - hi, p - q);
    } else {
      SqNonNeg(p - q);
    }
  }

  /** The clamped point really is the nearest point of the rectangle. */
  lemma ClosestIsNearest(p: Vec, r: Rect, q: Vec)
    requires InRect(q, r)
    ensures DistSq(p, ClosestPoint(p, r)) <= DistSq(p, q)
  {
    AxisNearest(p.x, r.left, r.Right(), q.x);
    AxisNearest(p.y, r.top, r.Bottom(), q.y);
    DotSelf(Sub(p, ClosestPoint(p, r)));
    DotSelf(Sub(p, q));
  }

  /** boomerang.cpp, lines 61-71: a circle of radius `radius` centred at `p`
      touches `r` iff the squared distance to the closest point is below
      `radius` squared. */
  predicate CircleHits(p: Vec, radius: real, r: Rect) {
    DistSq(p, ClosestPoint(p, r)) < Sq(radius)
  }

  /** The clamp test is exact: it reports a hit iff some point of the
      rectangle lies strictly inside the circle. */
  lemma CircleHitsIffOverlap(p: Vec, radius: real, r: Rect)
    requires 0.0 <= r.width && 0.0 <= r.height
    ensures CircleHits(p, radius, r) <==>
      exists q :: InRect(q, r) && DistSq(p, q) < Sq(radius)
  {
    if CircleHits(p, radius, r) {
      assert InRect(ClosestPoint(p, r), r);
    }
    if exists q :: InRect(q, r) && DistSq(p, q) < Sq(radius) {
      var q :| InRect(q, r) && DistSq(p, q) < Sq(radius);
      ClosestIsNearest(p, r, q);
    }
  }

  /** A circle whose centre lies in the rectangle always hits it. */
  lemma CentreInsideHits(p: Vec, radius: real, r: Rect)
    requires InRect(p, r) && radius != 0.0
    ensures CircleHits(p, radius, r)
  {
    SqPos(radius);
    DotSelf(Sub(p, p));
    assert Sq(0.0) == 0.0;
  }

  /** `v - 2 (v . n) n` (boomerang.cpp, lines 84-86). */
  function Reflect(v: Vec, n: Vec): Vec {
    Sub(v, Scale(n, 2.0 * Dot(v, n)))
  }

  /** Against a unit normal the component along the normal changes sign. */
  lemma ReflectFlipsNormal(v: Vec, n: Vec)
    requires Dot(n, n) == 1.0
    ensures Dot(Reflect(v, n), n) == -Dot(v, n)
  {
    var d := Dot(v, n);
    calc {
      Dot(Reflect(v, n), n);
      (v.x - n.x * (2.0 * d)) * n.x + (v.y - n.y * (2.0 * d)) * n.y;
      d - 2.0 * d * (n.x * n.x + n.y * n.y);
      -d;
    }
  }

  /** ... and every direction perpendicular to the normal is untouched. */
  lemma ReflectKeepsTangent(v: Vec, n: Vec, t: Vec)
    requires Dot(t, n) == 0.0
    ensures Dot(Reflect(v, n), t) == Dot(v, t)
  {
    var d := Dot(v, n);
    calc {
      Dot(Reflect(v, n), t);
      (v.x - n.x * (2.0 * d)) * t.x + (v.y - n.y * (2.0 * d)) * t.y;
      Dot(v, t) - 2.0 * d * (n.x * t.x + n.y * t.y);
      { assert n.x * t.x + n.y * t.y == Dot(t, n); }
      Dot(v, t);
    }
  }

  /** Reflecting about a unit normal preserves speed. */
  lemma ReflectKeepsSpeed(v: Vec, n: Vec)
    requires Dot(n, n) == 1.0
    ensures Dot(Reflect(v, n), Reflect(v, n)) == Dot(v, v)
  {
    var d := Dot(v, n);
    var w := Reflect(v, n);
    calc {
      Dot(w, w);
      (v.x - n.x * (2.0 * d)) * (v.x - n.x * (2.0 * d)) + (v.y - n.y * (2.0 * d)) * (v.y - n.y * (2.0 * d));
      Dot(v, v) - 4.0 * d * (v.x * n.x + v.y * n.y) + 4.0 * d * d * (n.x * n.x + n.y * n.y);
      Dot(v, v) - 4.0 * d * d + 4.0 * d * d * Dot(n, n);
      Dot(v, v);
    }
  }

  /** Reflecting twice about the same unit normal gives the velocity back. */
  lemma ReflectInvolution(v: Vec, n: Vec)
    requires Dot(n, n) == 1.0
    ensures Reflect(Reflect(v, n), n) == v
  {
    ReflectFlipsNormal(v, n);
    var w := Reflect(v, n);
    assert Dot(w, n) == -Dot(v, n);
  }

  /** The reflection with the zero vector as "normal" changes nothing. */
  lemma ReflectZeroNormal(v: Vec)
    ensures Reflect(v, Zero) == v
  {
  }

  /** What `std::sqrt` promises on non-negative arguments. */
  ghost predicate IsSqrt(sqrt: real -> real) {
    forall x :: 0.0 <= x ==> 0.0 <= sqrt(x) && Sq(sqrt(x)) == x
  }

  lemma SqrtFacts(sqrt: real -> real, x: real)
    requires IsSqrt(sqrt) && 0.0 <= x
    ensures 0.0 <= sqrt(x) && Sq(sqrt(x)) == x
    ensures sqrt(x) == 0.0 <==> x == 0.0
  {
    if sqrt(x) != 0.0 {
      SqPos(sqrt(x));
    }
  }

  /** `length` (boomerang.cpp, lines 5-7). */
  function Length(v: Vec, sqrt: real -> real): (l: real)
    requires IsSqrt(sqrt)
    ensures 0.0 <= l && Sq(l) == Dot(v, v)
    ensures l == 0.0 <==> v == Zero
  {
    DotSelfNonNeg(v);
    SqrtFacts(sqrt, Dot(v, v));
    sqrt(Dot(v, v))
  }

  /** `length(v) < k` can be decided without a square root. */
  lemma LengthBelowIff(v: Vec, k: real, sqrt: real -> real)
    requires IsSqrt(sqrt) && 0.0 <= k
    ensures Length(v, sqrt) < k <==> Dot(v, v) < Sq(k)
  {
    var l := Length(v, sqrt);
    if l < k {
      SqStrictMono(l, k);
    } else {
      SqMono(k, l);
    }
  }

  /** `normalize` (boomerang.cpp, lines 9-15): the zero vector is returned
      as it is; any other vector is scaled to length one, keeping its
      direction. */
  function Normalize(v: Vec, sqrt: real -> real): (u: Vec)
    requires IsSqrt(sqrt)
    ensures v == Zero ==> u == Zero
    ensures v != Zero ==> Dot(u, u) == 1.0
  {
    var len := Length(v, sqrt);
    if len != 0.0 then
      UnitScale(v, len);
      Vec(v.x / len, v.y / len)
    else v
  }

  /** A non-zero vector keeps its direction under `Normalize`: the result is
      parallel to it and points the same way. */
  lemma NormalizeKeepsDirection(v: Vec, sqrt: real -> real)
    requires IsSqrt(sqrt) && v != Zero
    ensures var u := Normalize(v, sqrt);
      0.0 < Dot(u, v) && u.x * v.y == u.y * v.x
  {
    UnitScale(v, Length(v, sqrt));
  }

  lemma ZeroProduct(x: real, y: real)
    requires y != 0.0 && x * y == 0.0
    ensures x == 0.0
  {
  }

  lemma ZeroProductSq(x: real, l: real)
    requires l != 0.0 && x * Sq(l) == 0.0
    ensures x == 0.0
  {
    SqPos(l);
    if 0.0 < x {
      MulPos(x, Sq(l));
      assert false;
    } else if x < 0.0 {
      MulPos(-x, Sq(l));
      assert false;
    }
  }

  lemma DivMul(a: real, l: real)
    requires l != 0.0
    ensures (a / l) * l == a
  {
  }

  lemma SqMul(p: real, l: real)
    ensures Sq(p * l) == Sq(p) * Sq(l)
  {
  }

  /** Dividing both coordinates by the length gives a unit vector pointing
      the same way as `v`. */
  lemma UnitScale(v: Vec, len: real)
    requires 0.0 < len && Sq(len) == Dot(v, v)
    ensures var u := Vec(v.x / len, v.y / len);
      Dot(u, u) == 1.0 && 0.0 < Dot(u, v) && u.x * v.y == u.y * v.x
  {
    var u := Vec(v.x / len, v.y / len);
    DotSelf(v);
    DotSelf(u);
    DivMul(v.x, len);
    DivMul(v.y, len);
    SqMul(u.x, len);
    SqMul(u.y, len);
    calc {
      (Sq(u.x) + Sq(u.y) - 1.0) * Sq(len);
      == Sq(u.x) * Sq(len) + Sq(u.y) * Sq(len) - Sq(len);
      == Sq(v.x) + Sq(v.y) - Sq(len);
      == 0.0;
    }
    ZeroProductSq(Sq(u.x) + Sq(u.y) - 1.0, len);
    calc {
      (Dot(u, v) - len) * len;
      == (u.x * len) * v.x + (u.y * len) * v.y - len * len;
      == Sq(v.x) + Sq(v.y) - Sq(len);
      == 0.0;
    }
    ZeroProduct(Dot(u, v) - len, len);
    assert u.x * v.y == u.y * v.x by {
      calc {
        u.x * v.y * len;
        == (u.x * len) * v.y;
        == v.x * v.y;
        == (u.y * len) * v.x;
        == u.y * v.x * len;
      }
      ZeroProduct(u.x * v.y - u.y * v.x, len);
    }
  }
}

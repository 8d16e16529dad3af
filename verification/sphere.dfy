/** Ray/sphere intersection of geocamUtil/sphere.py, over exact reals.

    The square root is a parameter (`sqrt`): the function follows the code
    whatever `sqrt` returns, and the lemmas that relate the result to the
    geometry rely only on `sqrt` returning the non-negative square root
    (`SqrtSound`). The vector operations used here belong to a geometry
    module that is not part of this model, so the few that are needed are
    defined below. */
module SphereGeom {
  import opened Wrappers

  datatype Point3 = Point3(x: real, y: real, z: real)
  datatype Vector3 = Vector3(dx: real, dy: real, dz: real)
  /** A ray from `start` along `dir`; the code expects `dir` to be of unit
      length but does not check it, and neither does the model. */
  datatype Ray3 = Ray3(start: Point3, dir: Vector3)
  datatype Sphere = Sphere(center: Point3, radius: real)

  /** What `intersect` returns: Python's `float("inf")` for a miss, or the
      distance along the ray to the hit. */
  datatype Hit = Inf | Dist(t: real)

  /** Point minus point. */
  function Minus(p: Point3, q: Point3): Vector3
  {
    Vector3(p.x - q.x, p.y - q.y, p.z - q.z)
  }

  function Dot(u: Vector3, v: Vector3): real
  {
    u.dx * v.dx + u.dy * v.dy + u.dz * v.dz
  }

  /** The point at parameter `t` along the ray. */
  function At(ray: Ray3, t: real): Point3
  {
    Point3(ray.start.x + t * ray.dir.dx, ray.start.y + t * ray.dir.dy, ray.start.z + t * ray.dir.dz)
  }

  ghost predicate OnSphere(s: Sphere, p: Point3)
  {
    Dot(Minus(p, s.center), Minus(p, s.center)) == s.radius * s.radius
  }

  /** `sqrt` returns the non-negative square root of every non-negative real. */
  ghost predicate SqrtSound(sqrt: real -> real)
  {
    forall x :: 0.0 <= x ==> 0.0 <= sqrt(x) && sqrt(x) * sqrt(x) == x
  }

  // The coefficients of the quadratic a*t*t + b*t + c that `intersect` solves.
  function CoefA(ray: Ray3): real { Dot(ray.dir, ray.dir) }
  function CoefB(s: Sphere, ray: Ray3): real { 2.0 * Dot(ray.dir, Minus(ray.start, s.center)) }
  function CoefC(s: Sphere, ray: Ray3): real
  {
    Dot(Minus(ray.start, s.center), Minus(ray.start, s.center)) - s.radius * s.radius
  }
  function Disc(s: Sphere, ray: Ray3): real
  {
    CoefB(s, ray) * CoefB(s, ray) - 4.0 * CoefA(ray) * CoefC(s, ray)
  }
  function Poly(s: Sphere, ray: Ray3, t: real): real
  {
    CoefA(ray) * t * t + CoefB(s, ray) * t + CoefC(s, ray)
  }

  /** The sign-chosen intermediate `q` of the root formula. */
  function RootQ(b: real, distSqrt: real): real
  {
    if b < 0.0 then (-b - distSqrt) / 2.0 else (-b + distSqrt) / 2.0
  }

  function Min(x: real, y: real): real { if x <= y then x else y }
  function Max(x: real, y: real): real { if x <= y then y else x }

  /** `Sphere.intersect`: no hit unless the discriminant is positive; else
      the roots `q/a` and `c/q` are ordered and the smaller one is returned
      if it is not negative, else the larger one if it is not negative, else
      +infinity. `c/q` with `q == 0` raises ZeroDivisionError. */
  function Intersect(s: Sphere, ray: Ray3, sqrt: real -> real): (r: Result<Hit>)
    ensures Disc(s, ray) <= 0.0 ==> r == Ok(Inf)
    ensures r.Ok? && r.value.Dist? ==> r.value.t >= 0.0
    ensures r.Err? ==> r.error == ZeroDivisionError && Disc(s, ray) > 0.0
  {
    var a := CoefA(ray);
    var b := CoefB(s, ray);
    var c := CoefC(s, ray);
    var disc := b * b - 4.0 * a * c;
    if disc > 0.0 then
      var q := RootQ(b, sqrt(disc));
      PositiveDiscHasDirection(s, ray);
      var t0 := q / a;
      if q == 0.0 then Err(ZeroDivisionError)
      else
        var t1 := c / q;
        var lo, hi := Min(t0, t1), Max(t0, t1);
        if hi >= 0.0 then Ok(if lo < 0.0 then Dist(hi) else Dist(lo)) else Ok(Inf)
    else
      Ok(Inf)
  }

  /** A positive discriminant needs a non-zero direction, so `q / a` never
      divides by zero. */
  lemma PositiveDiscHasDirection(s: Sphere, ray: Ray3)
    ensures Disc(s, ray) > 0.0 ==> CoefA(ray) > 0.0
  {
    SquareNonNegative(ray.dir.dx);
    SquareNonNegative(ray.dir.dy);
    SquareNonNegative(ray.dir.dz);
    if CoefA(ray) == 0.0 {
      DotSelfZero(ray.dir);
      ZeroDirectionNoDisc(s, ray);
    }
  }

  lemma DotSelfZero(d: Vector3)
    requires Dot(d, d) == 0.0
    ensures d == Vector3(0.0, 0.0, 0.0)
  {
    SquareNonNegative(d.dx);
    SquareNonNegative(d.dy);
    SquareNonNegative(d.dz);
    ZeroProduct(d.dx, d.dx);
    ZeroProduct(d.dy, d.dy);
    ZeroProduct(d.dz, d.dz);
  }

  lemma ZeroDirectionNoDisc(s: Sphere, ray: Ray3)
    requires ray.dir == Vector3(0.0, 0.0, 0.0)
    ensures Disc(s, ray) == 0.0
  {
    assert CoefA(ray) == 0.0;
    ZeroDot(ray.dir, Minus(ray.start, s.center));
    DoubledZero(s, ray);
    NoLinearNoDisc(s, ray);
  }

  // The three steps below each need a context of their own: stated in one
  // lemma, the nonlinear step exhausts the solver.
  lemma ZeroDot(u: Vector3, v: Vector3)
    requires u == Vector3(0.0, 0.0, 0.0)
    ensures Dot(u, v) == 0.0
  {
  }

  lemma DoubledZero(s: Sphere, ray: Ray3)
    requires Dot(ray.dir, Minus(ray.start, s.center)) == 0.0
    ensures CoefB(s, ray) == 0.0
  {
  }

  lemma NoLinearNoDisc(s: Sphere, ray: Ray3)
    requires CoefA(ray) == 0.0 && CoefB(s, ray) == 0.0
    ensures Disc(s, ray) == 0.0
  {
  }

  /** A zero direction vector gives +infinity, not a division error. */
  lemma ZeroDirectionMisses(s: Sphere, ray: Ray3, sqrt: real -> real)
    requires ray.dir == Vector3(0.0, 0.0, 0.0)
    ensures Intersect(s, ray, sqrt) == Ok(Inf)
  {
    ZeroDirectionNoDisc(s, ray);
  }

  lemma SquareNonNegative(x: real)
    ensures x * x >= 0.0
  {
    if x < 0.0 {
      assert x * x == (-x) * (-x);
    }
  }

  lemma ZeroProduct(x: real, y: real)
    requires x * y == 0.0
    ensures x == 0.0 || y == 0.0
  {
    if x != 0.0 {
      assert y == (x * y) / x;
    }
  }

  /** The point at parameter `t` is on the sphere exactly when `t` is a root
      of the quadratic. */
  lemma PolyIsDistance(s: Sphere, ray: Ray3, t: real)
    ensures OnSphere(s, At(ray, t)) <==> Poly(s, ray, t) == 0.0
  {
    var o := Minus(ray.start, s.center);
    var d := ray.dir;
    var v := Minus(At(ray, t), s.center);
    var x, y, z := o.dx + t * d.dx, o.dy + t * d.dy, o.dz + t * d.dz;
    assert v.dx == x && v.dy == y && v.dz == z;
    assert Dot(v, v) == x * x + y * y + z * z;
    DistanceExpansion(o.dx, o.dy, o.dz, d.dx, d.dy, d.dz, t);
    assert Dot(v, v) - s.radius * s.radius == Poly(s, ray, t);
  }

  /** |o + t d|^2 as a polynomial in `t`, coordinate by coordinate. */
  lemma DistanceExpansion(ox: real, oy: real, oz: real, dx: real, dy: real, dz: real, t: real)
    ensures (ox + t * dx) * (ox + t * dx) + (oy + t * dy) * (oy + t * dy) + (oz + t * dz) * (oz + t * dz)
      == (dx * dx + dy * dy + dz * dz) * t * t + 2.0 * (dx * ox + dy * oy + dz * oz) * t + (ox * ox + oy * oy + oz * oz)
  {
    SquareOfSum(ox, t, dx);
    SquareOfSum(oy, t, dy);
    SquareOfSum(oz, t, dz);
    assert (dx * dx + dy * dy + dz * dz) * t * t == t * t * (dx * dx) + t * t * (dy * dy) + t * t * (dz * dz);
    assert 2.0 * (dx * ox + dy * oy + dz * oz) * t == 2.0 * t * (dx * ox) + 2.0 * t * (dy * oy) + 2.0 * t * (dz * oz);
  }

  lemma SquareOfSum(o: real, t: real, d: real)
    ensures (o + t * d) * (o + t * d) == o * o + 2.0 * t * (d * o) + t * t * (d * d)
  {
  }

  /** With a sound square root, `q` satisfies q*q + b*q + a*c == 0. */
  lemma RootQEquation(a: real, b: real, c: real, distSqrt: real)
    requires 0.0 <= distSqrt && distSqrt * distSqrt == b * b - 4.0 * a * c
    ensures var q := RootQ(b, distSqrt); q * q + b * q + a * c == 0.0
  {
    var q := RootQ(b, distSqrt);
    if b < 0.0 {
      assert q + b == (b - distSqrt) / 2.0;
      assert q * (q + b) == -(b * b - distSqrt * distSqrt) / 4.0;
    } else {
      assert q + b == (b + distSqrt) / 2.0;
      assert q * (q + b) == (distSqrt * distSqrt - b * b) / 4.0;
    }
  }

  /** `q == 0` exactly when `c == 0`. */
  lemma RootQZero(a: real, b: real, c: real, distSqrt: real)
    requires a > 0.0
    requires 0.0 <= distSqrt && distSqrt * distSqrt == b * b - 4.0 * a * c
    ensures RootQ(b, distSqrt) == 0.0 <==> c == 0.0
  {
    var q := RootQ(b, distSqrt);
    RootQEquation(a, b, c, distSqrt);
    if c == 0.0 {
      assert (distSqrt - b) * (distSqrt + b) == distSqrt * distSqrt - b * b;
      ZeroProduct(distSqrt - b, distSqrt + b);
      if b == 0.0 {
        ZeroProduct(distSqrt, distSqrt);
      }
    }
    if q == 0.0 {
      assert a * c == 0.0;
      ZeroProduct(a, c);
    }
  }

  /** With `q*q + b*q + a*c == 0`, the quadratic factors through `q/a` and
      `c/q`, so these two are its roots. */
  lemma Factorization(a: real, b: real, c: real, q: real, t: real)
    requires a != 0.0 && q != 0.0 && q * q + b * q + a * c == 0.0
    ensures a * t * t + b * t + c == a * (t - q / a) * (t - c / q)
  {
    var t0, t1 := q / a, c / q;
    assert a * t0 == q;
    assert q * t1 == c;
    assert a * (t0 * t1) == c;
    assert a * (t0 + t1) * q == q * q + a * c;
    assert a * (t0 + t1) == -b;
    calc {
      a * (t - t0) * (t - t1);
      a * t * t - a * (t0 + t1) * t + a * (t0 * t1);
    }
  }

  /** The candidates `t0 = q/a` and `t1 = c/q` are exactly the parameters at
      which the ray meets the sphere. */
  lemma {:induction false} RootsAreHits(s: Sphere, ray: Ray3, sqrt: real -> real, t: real)
    requires SqrtSound(sqrt)
    requires Disc(s, ray) > 0.0 && CoefC(s, ray) != 0.0
    ensures var a, c := CoefA(ray), CoefC(s, ray);
      var q := RootQ(CoefB(s, ray), sqrt(Disc(s, ray)));
      q != 0.0 && a > 0.0 &&
      (OnSphere(s, At(ray, t)) <==> t == q / a || t == c / q)
  {
    var a, b, c := CoefA(ray), CoefB(s, ray), CoefC(s, ray);
    var d := sqrt(Disc(s, ray));
    PositiveDiscHasDirection(s, ray);
    SqrtOf(sqrt, Disc(s, ray));
    QuadraticRoots(a, b, c, d, t, Poly(s, ray, t));
    PolyIsDistance(s, ray, t);
  }

  lemma SqrtOf(sqrt: real -> real, x: real)
    requires SqrtSound(sqrt) && 0.0 <= x
    ensures 0.0 <= sqrt(x) && sqrt(x) * sqrt(x) == x
  {
  }

  /** The roots of a * t * t + b * t + c with a > 0 and c != 0, given the
      square root `d` of its discriminant, are `q/a` and `c/q`. */
  lemma QuadraticRoots(a: real, b: real, c: real, d: real, t: real, p: real)
    requires a > 0.0 && c != 0.0
    requires 0.0 <= d && d * d == b * b - 4.0 * a * c
    requires p == a * t * t + b * t + c
    ensures var q := RootQ(b, d); q != 0.0 && (p == 0.0 <==> t == q / a || t == c / q)
  {
    RootQZero(a, b, c, d);
    RootQEquation(a, b, c, d);
    var q := RootQ(b, d);
    Factorization(a, b, c, q, t);
    ProductZero(a, t - q / a, t - c / q);
  }

  lemma ProductZero(a: real, x: real, y: real)
    requires a != 0.0
    ensures a * x * y == 0.0 <==> x == 0.0 || y == 0.0
  {
    if a * x * y == 0.0 && x != 0.0 {
      assert a * x != 0.0;
    }
  }

  /** A negative discriminant: no point of the ray's line is on the
      sphere. */
  lemma {:induction false} NegativeDiscNoHit(s: Sphere, ray: Ray3, t: real)
    requires Disc(s, ray) < 0.0
    ensures !OnSphere(s, At(ray, t))
  {
    var a, b, c := CoefA(ray), CoefB(s, ray), CoefC(s, ray);
    PolyIsDistance(s, ray, t);
    CompletedSquare(a, b, c, t);
    SquareNonNegative(2.0 * a * t + b);
  }

  lemma CompletedSquare(a: real, b: real, c: real, t: real)
    ensures (2.0 * a * t + b) * (2.0 * a * t + b) == 4.0 * a * (a * t * t + b * t + c) + (b * b - 4.0 * a * c)
  {
  }

  /** The result of `intersect`, with a sound square root: an error exactly
      when the origin is on the sphere (and the discriminant is positive); a
      distance that is the first parameter, from 0 on, at which the ray meets
      the sphere; +infinity only when no root lies ahead of the origin (or
      the ray is tangent). */
  lemma {:induction false} IntersectIsNearestHit(s: Sphere, ray: Ray3, sqrt: real -> real)
    requires SqrtSound(sqrt)
    ensures Intersect(s, ray, sqrt).Err? <==> Disc(s, ray) > 0.0 && CoefC(s, ray) == 0.0
    ensures Intersect(s, ray, sqrt).Ok? && Intersect(s, ray, sqrt).value.Dist? ==>
      var t := Intersect(s, ray, sqrt).value.t;
      && 0.0 <= t && OnSphere(s, At(ray, t))
      && forall t' :: 0.0 <= t' < t ==> !OnSphere(s, At(ray, t'))
    ensures Intersect(s, ray, sqrt) == Ok(Inf) && Disc(s, ray) != 0.0 ==>
      forall t' :: 0.0 <= t' ==> !OnSphere(s, At(ray, t'))
  {
    var a, b, c := CoefA(ray), CoefB(s, ray), CoefC(s, ray);
    var disc := Disc(s, ray);
    if disc < 0.0 {
      forall t' | 0.0 <= t' ensures !OnSphere(s, At(ray, t')) {
        NegativeDiscNoHit(s, ray, t');
      }
    } else if disc > 0.0 {
      var d := sqrt(disc);
      PositiveDiscHasDirection(s, ray);
      RootQZero(a, b, c, d);
      if c != 0.0 {
        var q := RootQ(b, d);
        var t0, t1 := q / a, c / q;
        forall t' ensures OnSphere(s, At(ray, t')) <==> t' == t0 || t' == t1 {
          RootsAreHits(s, ray, sqrt, t');
        }
      }
    }
  }

  /** A ray that touches the sphere has a zero discriminant, and the code
      reports +infinity for it although the point of contact lies ahead of
      the origin. */
  lemma TangentRayMisses(sqrt: real -> real)
    ensures Intersect(Sphere(Point3(1.0, 0.0, 0.0), 1.0), Ray3(Point3(2.0, 0.0, 5.0), Vector3(0.0, 0.0, -1.0)), sqrt) == Ok(Inf)
    ensures OnSphere(Sphere(Point3(1.0, 0.0, 0.0), 1.0), At(Ray3(Point3(2.0, 0.0, 5.0), Vector3(0.0, 0.0, -1.0)), 5.0))
  {
    TangentRayDisc(Sphere(Point3(1.0, 0.0, 0.0), 1.0), Ray3(Point3(2.0, 0.0, 5.0), Vector3(0.0, 0.0, -1.0)));
    TangentRayContact(Sphere(Point3(1.0, 0.0, 0.0), 1.0), Ray3(Point3(2.0, 0.0, 5.0), Vector3(0.0, 0.0, -1.0)));
  }

  lemma TangentRayDisc(unit: Sphere, ray: Ray3)
    requires unit == Sphere(Point3(1.0, 0.0, 0.0), 1.0)
    requires ray == Ray3(Point3(2.0, 0.0, 5.0), Vector3(0.0, 0.0, -1.0))
    ensures Disc(unit, ray) == 0.0
  {
    var o := Minus(ray.start, unit.center);
    assert o == Vector3(1.0, 0.0, 5.0);
    assert Dot(ray.dir, o) == -5.0;
    assert Dot(o, o) == 26.0;
    assert CoefA(ray) == 1.0 && CoefB(unit, ray) == -10.0 && CoefC(unit, ray) == 25.0;
  }

  lemma TangentRayContact(unit: Sphere, ray: Ray3)
    requires unit == Sphere(Point3(1.0, 0.0, 0.0), 1.0)
    requires ray == Ray3(Point3(2.0, 0.0, 5.0), Vector3(0.0, 0.0, -1.0))
    ensures OnSphere(unit, At(ray, 5.0))
  {
    assert At(ray, 5.0) == Point3(2.0, 0.0, 0.0);
    assert Minus(At(ray, 5.0), unit.center) == Vector3(1.0, 0.0, 0.0);
  }

  /** The two checks run when the source file is executed: a ray from
      (1,0,5) straight down onto the unit sphere centred at (1,0,0) hits at
      distance 4, and the ray pointing up returns +infinity (the source's
      second check expects `None` there, which the code never returns). */
  lemma SelfTest(sqrt: real -> real)
    requires SqrtSound(sqrt)
    ensures Intersect(Sphere(Point3(1.0, 0.0, 0.0), 1.0), Ray3(Point3(1.0, 0.0, 5.0), Vector3(0.0, 0.0, -1.0)), sqrt) == Ok(Dist(4.0))
    ensures Intersect(Sphere(Point3(1.0, 0.0, 0.0), 1.0), Ray3(Point3(1.0, 0.0, 5.0), Vector3(0.0, 0.0, 1.0)), sqrt) == Ok(Inf)
  {
    var r := sqrt(4.0);
    assert 0.0 <= r && r * r == 4.0;
    assert (r - 2.0) * (r + 2.0) == r * r - 4.0;
    ZeroProduct(r - 2.0, r + 2.0);
    var down := Ray3(Point3(1.0, 0.0, 5.0), Vector3(0.0, 0.0, -1.0));
    var up := Ray3(Point3(1.0, 0.0, 5.0), Vector3(0.0, 0.0, 1.0));
    var unit := Sphere(Point3(1.0, 0.0, 0.0), 1.0);
    assert CoefA(down) == 1.0 && CoefB(unit, down) == -10.0 && CoefC(unit, down) == 24.0;
    assert Disc(unit, down) == 4.0;
    assert RootQ(-10.0, 2.0) == 4.0;
    assert CoefA(up) == 1.0 && CoefB(unit, up) == 10.0 && CoefC(unit, up) == 24.0;
    assert Disc(unit, up) == 4.0;
    assert RootQ(10.0, 2.0) == -4.0;
  }
}

/**
 * The scene objects of the ray tracer (Object.h, Object.cpp): materials,
 * the three shapes and their ray intersection tests.
 *
 * A C++ `Intersect` writes the four fields of the caller's `IntersectInfo`
 * only when it returns true. Here the decision and the record it would
 * write are the function `HitOf`; the method `Intersect` plays the in/out
 * parameter and leaves the record as it was on a miss.
 */
module Objects {
  import opened Wrappers
  import opened Vectors

  /** Material, with the seven fields of its constructor in order. */
  datatype Material = Material(
    ambient: Vec3,
    diffuse: Vec3,
    specular: Vec3,
    specularIntensity: real,
    reflection: real,
    refraction: real,
    refractiveIndex: real)

  /**
   * The default Material constructor. It sets five fields and leaves
   * `refraction` and `refractiveIndex` uninitialised; whatever those hold
   * is supplied by the caller.
   */
  function DefaultMaterial(refraction: real, refractiveIndex: real): Material {
    Material(Vec3(1.0, 1.0, 1.0), Vec3(1.0, 1.0, 1.0), Vec3(1.0, 1.0, 1.0), 10.0, 0.0,
             refraction, refractiveIndex)
  }

  /** A ray. Its direction is stored as given: it need not have length 1. */
  datatype Ray = Ray(origin: Vec3, direction: Vec3) {
    /** The point reached after parameter t: origin + t * direction. */
    function At(t: real): Vec3 {
      Add(origin, Scale(t, direction))
    }
  }

  /** The hit record an intersection test fills in. */
  datatype IntersectInfo = IntersectInfo(hitPoint: Vec3, time: real, normal: Vec3, material: Material)

  /** The geometry of the three concrete shapes, as their constructors store it. */
  datatype Shape =
    | Sphere(origin: Vec3, radius: real)
    | Plane(point: Vec3, normal: Vec3)
    | Triangle(pointA: Vec3, pointB: Vec3, pointC: Vec3)

  /** A scene object: its placement, its material and its shape. */
  datatype Object = Object(transform: Mat4, material: Material, shape: Shape) {
    /** The translation part of the placement: column 3, rows 0 to 2. */
    function Position(): Vec3 {
      Vec3(transform.c3.x, transform.c3.y, transform.c3.z)
    }

    /** The object's own stored material. */
    function MaterialPtr(): Material {
      material
    }
  }

  /** glm::mat4(k): k on the diagonal, 0 elsewhere (the default placement is k = 1). */
  function Diagonal(k: real): Mat4 {
    Mat4(Vec4(k, 0.0, 0.0, 0.0), Vec4(0.0, k, 0.0, 0.0), Vec4(0.0, 0.0, k, 0.0), Vec4(0.0, 0.0, 0.0, k))
  }

  // ---------------------------------------------------------------------
  // The three intersection tests, as the ray parameter they accept

  /** The quadratic a t^2 + b t + c of a ray against a sphere. */
  function SphereA(ray: Ray): real {
    Dot(ray.direction, ray.direction)
  }

  function SphereB(origin: Vec3, ray: Ray): real {
    Dot(Scale(2.0, ray.direction), Sub(ray.origin, origin))
  }

  function SphereC(origin: Vec3, radius: real, ray: Ray): real {
    Dot(Sub(ray.origin, origin), Sub(ray.origin, origin)) - Square(radius)
  }

  function Discriminant(a: real, b: real, c: real): real {
    Square(b) - 4.0 * a * c
  }

  /**
   * Sphere::Intersect's decision: no hit when the discriminant is not
   * positive (a tangent ray misses); otherwise the smaller root, and no hit
   * when that root is negative.
   */
  function SphereRoot(num: Numerics, origin: Vec3, radius: real, ray: Ray): Option<real> {
    var disc := Discriminant(SphereA(ray), SphereB(origin, ray), SphereC(origin, radius, ray));
    if disc <= 0.0 then None
    else
      DiscriminantNeedsDirection(origin, radius, ray);
      var t := (-SphereB(origin, ray) - num.sqrt(disc)) / (2.0 * SphereA(ray));
      if t < 0.0 then None else Some(t)
  }

  /** A positive discriminant implies a non-zero direction, so the division above is defined. */
  lemma DiscriminantNeedsDirection(origin: Vec3, radius: real, ray: Ray)
    requires 0.0 < Discriminant(SphereA(ray), SphereB(origin, ray), SphereC(origin, radius, ray))
    ensures 0.0 < SphereA(ray)
  {
    if ray.direction == Zero {
      ZeroDirectionA(ray);
      ZeroDirectionB(origin, ray);
      DiscriminantWithoutTerms(SphereA(ray), SphereB(origin, ray), SphereC(origin, radius, ray));
    } else {
      DotSelfPositive(ray.direction);
    }
  }

  lemma ZeroDirectionA(ray: Ray)
    requires ray.direction == Zero
    ensures SphereA(ray) == 0.0
  {
    DotZeroLeft(Zero);
  }

  lemma ZeroDirectionB(origin: Vec3, ray: Ray)
    requires ray.direction == Zero
    ensures SphereB(origin, ray) == 0.0
  {
    assert Scale(2.0, ray.direction) == Zero;
    DotZeroLeft(Sub(ray.origin, origin));
  }

  lemma DotZeroLeft(v: Vec3)
    ensures Dot(Zero, v) == 0.0
  {
  }

  lemma DiscriminantWithoutTerms(a: real, b: real, c: real)
    requires a == 0.0 && b == 0.0
    ensures Discriminant(a, b, c) == 0.0
  {
  }

  /**
   * Plane::Intersect's decision: no hit when the ray is parallel to the
   * plane or the plane lies behind the origin (parameter below 0).
   */
  function PlaneParam(point: Vec3, normal: Vec3, ray: Ray): Option<real> {
    var a := Dot(ray.direction, normal);
    if a == 0.0 then None
    else
      var t := Dot(Sub(point, ray.origin), normal) / a;
      if t < 0.0 then None else Some(t)
  }

  /** The normal Triangle::Intersect computes from the vertex order A, B, C. */
  function TriangleNormal(num: Numerics, pointA: Vec3, pointB: Vec3, pointC: Vec3): Vec3 {
    Normalize(num, Cross(Sub(pointB, pointA), Sub(pointC, pointB)))
  }

  /** The three edge determinants of a point p against the triangle, for a normal n. */
  function EdgeTestA(pointA: Vec3, pointB: Vec3, n: Vec3, p: Vec3): real {
    Dot(n, Cross(Sub(pointB, pointA), Sub(p, pointA)))
  }

  function EdgeTestB(pointB: Vec3, pointC: Vec3, n: Vec3, p: Vec3): real {
    Dot(n, Cross(Sub(pointC, pointB), Sub(p, pointB)))
  }

  function EdgeTestC(pointC: Vec3, pointA: Vec3, n: Vec3, p: Vec3): real {
    Dot(n, Cross(Sub(pointA, pointC), Sub(p, pointC)))
  }

  /**
   * The first half of Triangle::Intersect for the normal n: no crossing
   * when the ray is parallel to the triangle's plane or the parameter is
   * not positive.
   */
  function TriangleCrossing(pointA: Vec3, n: Vec3, ray: Ray): Option<real> {
    var a := Dot(ray.direction, n);
    if a == 0.0 then None
    else
      var t := Dot(Sub(pointA, ray.origin), n) / a;
      if t <= 0.0 then None else Some(t)
  }

  /** The second half: all three edge determinants of the plane point are positive. */
  predicate InsideEdges(pointA: Vec3, pointB: Vec3, pointC: Vec3, n: Vec3, p: Vec3) {
    0.0 < EdgeTestA(pointA, pointB, n, p) && 0.0 < EdgeTestB(pointB, pointC, n, p)
    && 0.0 < EdgeTestC(pointC, pointA, n, p)
  }

  /** Triangle::Intersect's decision for the normal n. */
  function TriangleParam(pointA: Vec3, pointB: Vec3, pointC: Vec3, n: Vec3, ray: Ray): Option<real> {
    match TriangleCrossing(pointA, n, ray)
    case None => None
    case Some(t) => if InsideEdges(pointA, pointB, pointC, n, ray.At(t)) then Some(t) else None
  }

  /** The ray parameter of the object's hit, if any. */
  function Param(num: Numerics, o: Object, ray: Ray): Option<real> {
    match o.shape
    case Sphere(origin, radius) => SphereRoot(num, origin, radius, ray)
    case Plane(point, normal) => PlaneParam(point, normal, ray)
    case Triangle(pointA, pointB, pointC) =>
      TriangleParam(pointA, pointB, pointC, TriangleNormal(num, pointA, pointB, pointC), ray)
  }

  /** The normal each shape stores for a hit at point p. */
  function SurfaceNormal(num: Numerics, o: Object, p: Vec3): Vec3 {
    match o.shape
    case Sphere(origin, _) => Normalize(num, Sub(p, origin))
    case Plane(_, normal) => normal
    case Triangle(pointA, pointB, pointC) => TriangleNormal(num, pointA, pointB, pointC)
  }

  /** The record every shape writes for a hit at parameter t. */
  function Record(num: Numerics, ray: Ray, t: real, normal: Vec3, material: Material): IntersectInfo {
    var p := ray.At(t);
    IntersectInfo(p, Length(num, Sub(ray.origin, p)), normal, material)
  }

  /** What Intersect decides and, on a hit, writes. */
  function HitOf(num: Numerics, o: Object, ray: Ray): Option<IntersectInfo> {
    match Param(num, o, ray)
    case None => None
    case Some(t) => Some(Record(num, ray, t, SurfaceNormal(num, o, ray.At(t)), o.MaterialPtr()))
  }

  /**
   * Object::Intersect for a sphere, plane or triangle, with the hit record
   * as an in/out parameter: on a miss the record comes back unchanged.
   */
  method Intersect(num: Numerics, o: Object, ray: Ray, info: IntersectInfo) returns (hit: bool, updated: IntersectInfo)
    ensures hit <==> Param(num, o, ray).Some?
    ensures hit ==> updated == Record(num, ray, Param(num, o, ray).value,
                                      SurfaceNormal(num, o, ray.At(Param(num, o, ray).value)), o.material)
    ensures !hit ==> updated == info
  {
    var r := HitOf(num, o, ray);
    if r.Some? {
      hit, updated := true, r.value;
    } else {
      hit, updated := false, info;
    }
  }

  /** The base Object::Intersect: reports a hit and writes nothing. */
  method BaseIntersect(ray: Ray, info: IntersectInfo) returns (hit: bool, updated: IntersectInfo)
    ensures hit && updated == info
  {
    hit, updated := true, info;
  }

  // ---------------------------------------------------------------------
  // Properties of the intersection tests

  lemma MulNonZeroFactor(p: real, q: real)
    requires p != 0.0 && p * q == 0.0
    ensures q == 0.0
  {
  }

  /** The root a quadratic's formula picks is a root. */
  lemma QuadraticRoot(a: real, b: real, c: real, s: real, t: real)
    requires a != 0.0 && s * s == b * b - 4.0 * a * c && t == (-b - s) / (2.0 * a)
    ensures a * t * t + b * t + c == 0.0
  {
    var u := 2.0 * a * t;
    assert u == -b - s;
    assert 4.0 * a * (a * t * t + b * t + c) == u * u + 2.0 * b * u + 4.0 * a * c;
    MulNonZeroFactor(4.0 * a, a * t * t + b * t + c);
  }

  /**
   * Under the sqrt law, the sphere's parameter is a non-negative root of
   * a t^2 + b t + c, and the smaller of the two roots.
   */
  lemma SphereRootSolvesQuadratic(num: Numerics, origin: Vec3, radius: real, ray: Ray)
    requires SqrtLaw(num) && SphereRoot(num, origin, radius, ray).Some?
    ensures var t := SphereRoot(num, origin, radius, ray).value;
      var a, b, c := SphereA(ray), SphereB(origin, ray), SphereC(origin, radius, ray);
      0.0 < a && 0.0 <= t && a * t * t + b * t + c == 0.0
      && t <= (-b + num.sqrt(Discriminant(a, b, c))) / (2.0 * a)
  {
    var a, b, c := SphereA(ray), SphereB(origin, ray), SphereC(origin, radius, ray);
    var disc := Discriminant(a, b, c);
    DiscriminantNeedsDirection(origin, radius, ray);
    var s := num.sqrt(disc);
    assert 0.0 <= s && Square(s) == disc;
    var t := (-b - s) / (2.0 * a);
    QuadraticRoot(a, b, c, s, t);
    assert (-b - s) / (2.0 * a) <= (-b + s) / (2.0 * a);
  }

  lemma InsideRootNegative(a: real, b: real, c: real, s: real)
    requires 0.0 < a && c < 0.0 && 0.0 <= s && Square(s) == Discriminant(a, b, c)
    ensures -b - s < 0.0
  {
    MulPositive(a, -c);
    assert 4.0 * a * c == -4.0 * (a * -c);
    if b <= 0.0 && s <= -b {
      SquareOfNegation(b);
      if s < -b {
        SquareStrictlyBelow(s, -b);
      }
    }
  }

  lemma OutsideRootPositive(a: real, b: real, c: real, s: real)
    requires 0.0 < a && 0.0 < c && b < 0.0 && 0.0 <= s && Square(s) == Discriminant(a, b, c)
    ensures 0.0 < -b - s
  {
    MulPositive(a, c);
    assert 4.0 * a * c == 4.0 * (a * c);
    SquareOfNegation(b);
    if -b < s {
      SquareStrictlyBelow(-b, s);
    }
  }

  /**
   * A ray that starts inside a sphere never hits it: the smaller root is
   * behind the origin, and the far root is never considered.
   */
  lemma SphereFromInsideMisses(num: Numerics, origin: Vec3, radius: real, ray: Ray)
    requires SqrtLaw(num) && Dot(Sub(ray.origin, origin), Sub(ray.origin, origin)) < Square(radius)
    ensures SphereRoot(num, origin, radius, ray) == None
  {
    var a, b, c := SphereA(ray), SphereB(origin, ray), SphereC(origin, radius, ray);
    var disc := Discriminant(a, b, c);
    if 0.0 < disc {
      DiscriminantNeedsDirection(origin, radius, ray);
      var s := num.sqrt(disc);
      InsideRootNegative(a, b, c, s);
      NegativeOverPositive(-b - s, 2.0 * a);
    }
  }

  /**
   * A ray that starts outside a sphere and heads towards its centre hits it
   * at a positive parameter whenever the discriminant is positive.
   */
  lemma SphereAheadHits(num: Numerics, origin: Vec3, radius: real, ray: Ray)
    requires SqrtLaw(num) && Square(radius) < Dot(Sub(ray.origin, origin), Sub(ray.origin, origin))
    requires SphereB(origin, ray) < 0.0
    requires 0.0 < Discriminant(SphereA(ray), SphereB(origin, ray), SphereC(origin, radius, ray))
    ensures SphereRoot(num, origin, radius, ray).Some? && 0.0 < SphereRoot(num, origin, radius, ray).value
  {
    var a, b, c := SphereA(ray), SphereB(origin, ray), SphereC(origin, radius, ray);
    DiscriminantNeedsDirection(origin, radius, ray);
    var s := num.sqrt(Discriminant(a, b, c));
    OutsideRootPositive(a, b, c, s);
    PositiveOverPositive(-b - s, 2.0 * a);
  }

  lemma NegativeOverPositive(p: real, q: real)
    requires p < 0.0 && 0.0 < q
    ensures p / q < 0.0
  {
    assert p / q * q == p;
  }

  lemma PositiveOverPositive(p: real, q: real)
    requires 0.0 < p && 0.0 < q
    ensures 0.0 < p / q
  {
    assert p / q * q == p;
  }

  /** The squared distance from p + t d to q, expanded in t. */
  lemma DistanceAlongRay(p: Vec3, d: Vec3, q: Vec3, t: real)
    ensures var e := Sub(Add(p, Scale(t, d)), q);
      Dot(e, e) == Dot(Sub(p, q), Sub(p, q)) + t * Dot(Scale(2.0, d), Sub(p, q)) + t * t * Dot(d, d)
  {
  }

  /** Under the sqrt law, a sphere hit point lies on the sphere's surface. */
  lemma SphereHitOnSurface(num: Numerics, o: Object, ray: Ray)
    requires SqrtLaw(num) && o.shape.Sphere? && HitOf(num, o, ray).Some?
    ensures var h := HitOf(num, o, ray).value;
      Dot(Sub(h.hitPoint, o.shape.origin), Sub(h.hitPoint, o.shape.origin)) == Square(o.shape.radius)
  {
    var origin, radius := o.shape.origin, o.shape.radius;
    SphereRootSolvesQuadratic(num, origin, radius, ray);
    var t := SphereRoot(num, origin, radius, ray).value;
    DistanceAlongRay(ray.origin, ray.direction, origin, t);
  }

  /** A sphere hit's normal points from the centre through the hit point. */
  lemma SphereNormalOutward(num: Numerics, o: Object, ray: Ray) returns (k: real)
    requires SqrtLaw(num) && o.shape.Sphere? && HitOf(num, o, ray).Some?
    ensures var h := HitOf(num, o, ray).value;
      0.0 < k && h.normal == Scale(k, Sub(h.hitPoint, o.shape.origin))
  {
    var h := HitOf(num, o, ray).value;
    k := NormalizeIsPositiveScale(num, Sub(h.hitPoint, o.shape.origin));
  }

  /** A plane hit point lies on the plane, and the stored normal is the plane's own. */
  lemma PlaneHitOnPlane(num: Numerics, o: Object, ray: Ray)
    requires o.shape.Plane? && HitOf(num, o, ray).Some?
    ensures var h := HitOf(num, o, ray).value;
      Dot(Sub(h.hitPoint, o.shape.point), o.shape.normal) == 0.0 && h.normal == o.shape.normal
  {
    var point, normal := o.shape.point, o.shape.normal;
    var a := Dot(ray.direction, normal);
    var t := Dot(Sub(point, ray.origin), normal) / a;
    assert t * a == Dot(Sub(point, ray.origin), normal);
    DotScaleLeft(t, ray.direction, normal);
  }

  /** A triangle hit point lies in the triangle's plane. */
  lemma TriangleHitInPlane(num: Numerics, o: Object, ray: Ray)
    requires o.shape.Triangle? && HitOf(num, o, ray).Some?
    ensures var h := HitOf(num, o, ray).value;
      Dot(Sub(h.hitPoint, o.shape.pointA), h.normal) == 0.0
  {
    var n := TriangleNormal(num, o.shape.pointA, o.shape.pointB, o.shape.pointC);
    TriangleParamInPlane(o.shape.pointA, o.shape.pointB, o.shape.pointC, n, ray);
  }

  lemma TriangleParamInPlane(pointA: Vec3, pointB: Vec3, pointC: Vec3, n: Vec3, ray: Ray)
    requires TriangleParam(pointA, pointB, pointC, n, ray).Some?
    ensures Dot(Sub(ray.At(TriangleParam(pointA, pointB, pointC, n, ray).value), pointA), n) == 0.0
  {
    var a := Dot(ray.direction, n);
    var t := Dot(Sub(pointA, ray.origin), n) / a;
    assert t * a == Dot(Sub(pointA, ray.origin), n);
    DotScaleLeft(t, ray.direction, n);
  }

  lemma PositiveFactorKeepsSign(k: real, x: real)
    requires 0.0 < k
    ensures 0.0 < k * x <==> 0.0 < x
  {
    if 0.0 < x {
      MulPositive(k, x);
    } else if 0.0 < k * x {
      MulNonNegative(k, -x);
    }
  }

  /** Scaling the normal by a positive factor changes neither the crossing nor its parameter. */
  lemma TriangleCrossingScaleInvariant(pointA: Vec3, n: Vec3, k: real, ray: Ray)
    requires 0.0 < k
    ensures TriangleCrossing(pointA, Scale(k, n), ray) == TriangleCrossing(pointA, n, ray)
  {
    var m := Scale(k, n);
    var a := Dot(ray.direction, n);
    DotScaleRight(ray.direction, k, n);
    ProductZeroIff(k, a);
    assert Dot(ray.direction, m) == 0.0 <==> a == 0.0;
    if a != 0.0 {
      var num := Dot(Sub(pointA, ray.origin), n);
      DotScaleRight(Sub(pointA, ray.origin), k, n);
      CancelFactor(k, num, a);
      assert Dot(Sub(pointA, ray.origin), m) / Dot(ray.direction, m) == num / a;
    }
  }

  lemma ProductZeroIff(k: real, a: real)
    requires k != 0.0
    ensures k * a == 0.0 <==> a == 0.0
  {
    if k * a == 0.0 {
      MulNonZeroFactor(k, a);
    }
  }

  lemma CancelFactor(k: real, p: real, q: real)
    requires k != 0.0 && q != 0.0
    ensures (k * p) / (k * q) == p / q
  {
  }

  lemma EdgeTestAScale(pointA: Vec3, pointB: Vec3, n: Vec3, k: real, p: Vec3)
    requires 0.0 < k
    ensures 0.0 < EdgeTestA(pointA, pointB, Scale(k, n), p) <==> 0.0 < EdgeTestA(pointA, pointB, n, p)
  {
    DotScaleLeft(k, n, Cross(Sub(pointB, pointA), Sub(p, pointA)));
    PositiveFactorKeepsSign(k, EdgeTestA(pointA, pointB, n, p));
  }

  lemma EdgeTestBScale(pointB: Vec3, pointC: Vec3, n: Vec3, k: real, p: Vec3)
    requires 0.0 < k
    ensures 0.0 < EdgeTestB(pointB, pointC, Scale(k, n), p) <==> 0.0 < EdgeTestB(pointB, pointC, n, p)
  {
    DotScaleLeft(k, n, Cross(Sub(pointC, pointB), Sub(p, pointB)));
    PositiveFactorKeepsSign(k, EdgeTestB(pointB, pointC, n, p));
  }

  lemma EdgeTestCScale(pointC: Vec3, pointA: Vec3, n: Vec3, k: real, p: Vec3)
    requires 0.0 < k
    ensures 0.0 < EdgeTestC(pointC, pointA, Scale(k, n), p) <==> 0.0 < EdgeTestC(pointC, pointA, n, p)
  {
    DotScaleLeft(k, n, Cross(Sub(pointA, pointC), Sub(p, pointC)));
    PositiveFactorKeepsSign(k, EdgeTestC(pointC, pointA, n, p));
  }

  /**
   * The triangle test does not depend on the length of the normal: scaling
   * it by any positive factor gives the same decision and parameter.
   */
  lemma TriangleParamScaleInvariant(pointA: Vec3, pointB: Vec3, pointC: Vec3, n: Vec3, k: real, ray: Ray)
    requires 0.0 < k
    ensures TriangleParam(pointA, pointB, pointC, Scale(k, n), ray) == TriangleParam(pointA, pointB, pointC, n, ray)
  {
    TriangleCrossingScaleInvariant(pointA, n, k, ray);
    var crossing := TriangleCrossing(pointA, n, ray);
    if crossing.Some? {
      var p := ray.At(crossing.value);
      EdgeTestAScale(pointA, pointB, n, k, p);
      EdgeTestBScale(pointB, pointC, n, k, p);
      EdgeTestCScale(pointC, pointA, n, k, p);
    }
  }

  /**
   * Under the sqrt law, normalising the triangle's cross product changes
   * neither the hit decision nor the parameter.
   */
  lemma TriangleNormalizationCancels(num: Numerics, pointA: Vec3, pointB: Vec3, pointC: Vec3, ray: Ray)
    requires SqrtLaw(num)
    ensures TriangleParam(pointA, pointB, pointC, TriangleNormal(num, pointA, pointB, pointC), ray)
         == TriangleParam(pointA, pointB, pointC, Cross(Sub(pointB, pointA), Sub(pointC, pointB)), ray)
  {
    var cross := Cross(Sub(pointB, pointA), Sub(pointC, pointB));
    var k := NormalizeIsPositiveScale(num, cross);
    TriangleParamScaleInvariant(pointA, pointB, pointC, cross, k, ray);
  }

  /** Listing the vertices as A, C, B instead of A, B, C flips the unnormalised normal. */
  lemma TriangleWinding(pointA: Vec3, pointB: Vec3, pointC: Vec3)
    ensures Cross(Sub(pointC, pointA), Sub(pointB, pointC)) == Neg(Cross(Sub(pointB, pointA), Sub(pointC, pointB)))
  {
  }

  /** The cross product of a vector with a multiple of itself vanishes. */
  lemma CrossParallel(e: Vec3, s: real)
    ensures Cross(e, Scale(s, e)) == Zero
  {
  }

  /**
   * A point on the line through any edge of the triangle is never a hit:
   * its edge determinant is zero, and the test demands all three be positive.
   */
  lemma TriangleEdgeIsMiss(pointA: Vec3, pointB: Vec3, pointC: Vec3, n: Vec3, ray: Ray, s: real)
    requires TriangleParam(pointA, pointB, pointC, n, ray).Some?
    ensures var p := ray.At(TriangleParam(pointA, pointB, pointC, n, ray).value);
      p != Add(pointA, Scale(s, Sub(pointB, pointA)))
      && p != Add(pointB, Scale(s, Sub(pointC, pointB)))
      && p != Add(pointC, Scale(s, Sub(pointA, pointC)))
  {
    CrossParallel(Sub(pointB, pointA), s);
    CrossParallel(Sub(pointC, pointB), s);
    CrossParallel(Sub(pointA, pointC), s);
  }

  // ---------------------------------------------------------------------
  // Completeness: the plane and triangle tests find every crossing they should

  /** The point A + u (B - A) + v (C - A) of the triangle's plane, by its barycentric coordinates u, v. */
  function Barycentric(pointA: Vec3, pointB: Vec3, pointC: Vec3, u: real, v: real): Vec3 {
    Add(pointA, Add(Scale(u, Sub(pointB, pointA)), Scale(v, Sub(pointC, pointA))))
  }

  /** The unnormalised triangle normal, and how it relates to the cross products of the other edges. */
  lemma RawNormalFromEdges(pointA: Vec3, pointB: Vec3, pointC: Vec3)
    ensures Cross(Sub(pointB, pointA), Sub(pointC, pointB)) == Cross(Sub(pointB, pointA), Sub(pointC, pointA))
  {
  }

  lemma RawNormalAgainstFirstEdge(pointA: Vec3, pointB: Vec3, pointC: Vec3)
    ensures Cross(Sub(pointC, pointB), Sub(pointB, pointA)) == Neg(Cross(Sub(pointB, pointA), Sub(pointC, pointA)))
  {
  }

  lemma RawNormalAgainstSecondEdge(pointA: Vec3, pointB: Vec3, pointC: Vec3)
    ensures Cross(Sub(pointC, pointB), Sub(pointC, pointA)) == Neg(Cross(Sub(pointB, pointA), Sub(pointC, pointA)))
  {
  }

  lemma RawNormalFromThirdEdge(pointA: Vec3, pointB: Vec3, pointC: Vec3)
    ensures Cross(Sub(pointA, pointC), Sub(pointB, pointA)) == Cross(Sub(pointB, pointA), Sub(pointC, pointA))
  {
  }

  lemma OppositeEdgeCross(pointA: Vec3, pointC: Vec3)
    ensures Cross(Sub(pointA, pointC), Sub(pointC, pointA)) == Zero
  {
  }

  /** A cross product is orthogonal to both of its factors. */
  lemma NormalOrthogonalToEdges(e1: Vec3, e2: Vec3)
    ensures Dot(e1, Cross(e1, e2)) == 0.0 && Dot(e2, Cross(e1, e2)) == 0.0
  {
  }

  /** The offsets of the barycentric point from B and from C. */
  lemma BarycentricFromB(pointA: Vec3, pointB: Vec3, pointC: Vec3, u: real, v: real)
    ensures Sub(Barycentric(pointA, pointB, pointC, u, v), pointB)
         == Add(Scale(u - 1.0, Sub(pointB, pointA)), Scale(v, Sub(pointC, pointA)))
  {
  }

  lemma BarycentricFromC(pointA: Vec3, pointB: Vec3, pointC: Vec3, u: real, v: real)
    ensures Sub(Barycentric(pointA, pointB, pointC, u, v), pointC)
         == Add(Scale(u, Sub(pointB, pointA)), Scale(v - 1.0, Sub(pointC, pointA)))
  {
  }

  /** Against the unnormalised normal n, each edge determinant is a barycentric weight times |n|^2. */
  lemma EdgeTestABarycentric(pointA: Vec3, pointB: Vec3, pointC: Vec3, u: real, v: real)
    ensures var n := Cross(Sub(pointB, pointA), Sub(pointC, pointB));
            EdgeTestA(pointA, pointB, n, Barycentric(pointA, pointB, pointC, u, v)) == v * Dot(n, n)
  {
    var e1, e2 := Sub(pointB, pointA), Sub(pointC, pointA);
    var n := Cross(e1, Sub(pointC, pointB));
    RawNormalFromEdges(pointA, pointB, pointC);
    var p := Barycentric(pointA, pointB, pointC, u, v);
    assert Sub(p, pointA) == Add(Scale(u, e1), Scale(v, e2));
    CrossOfCombination(e1, u, e1, v, e2);
    CrossSelf(e1);
    assert Cross(e1, Sub(p, pointA)) == Scale(v, n);
    DotScaleRight(n, v, n);
  }

  lemma EdgeTestBBarycentric(pointA: Vec3, pointB: Vec3, pointC: Vec3, u: real, v: real)
    ensures var n := Cross(Sub(pointB, pointA), Sub(pointC, pointB));
            EdgeTestB(pointB, pointC, n, Barycentric(pointA, pointB, pointC, u, v)) == (1.0 - u - v) * Dot(n, n)
  {
    var e1, e2, f := Sub(pointB, pointA), Sub(pointC, pointA), Sub(pointC, pointB);
    var n := Cross(e1, f);
    RawNormalFromEdges(pointA, pointB, pointC);
    var p := Barycentric(pointA, pointB, pointC, u, v);
    BarycentricFromB(pointA, pointB, pointC, u, v);
    CrossOfCombination(f, u - 1.0, e1, v, e2);
    RawNormalAgainstFirstEdge(pointA, pointB, pointC);
    RawNormalAgainstSecondEdge(pointA, pointB, pointC);
    ScaleNegSum(u - 1.0, v, n);
    assert -(u - 1.0) - v == 1.0 - u - v;
    assert Cross(f, Sub(p, pointB)) == Scale(1.0 - u - v, n);
    DotScaleRight(n, 1.0 - u - v, n);
  }

  lemma EdgeTestCBarycentric(pointA: Vec3, pointB: Vec3, pointC: Vec3, u: real, v: real)
    ensures var n := Cross(Sub(pointB, pointA), Sub(pointC, pointB));
            EdgeTestC(pointC, pointA, n, Barycentric(pointA, pointB, pointC, u, v)) == u * Dot(n, n)
  {
    var e1, e2, g := Sub(pointB, pointA), Sub(pointC, pointA), Sub(pointA, pointC);
    var n := Cross(e1, Sub(pointC, pointB));
    RawNormalFromEdges(pointA, pointB, pointC);
    var p := Barycentric(pointA, pointB, pointC, u, v);
    BarycentricFromC(pointA, pointB, pointC, u, v);
    CrossOfCombination(g, u, e1, v - 1.0, e2);
    RawNormalFromThirdEdge(pointA, pointB, pointC);
    OppositeEdgeCross(pointA, pointC);
    ScaleZero(v - 1.0);
    assert Cross(g, Sub(p, pointC)) == Add(Scale(u, n), Zero);
    DotScaleRight(n, u, n);
  }

  /** The barycentric coordinates decide the edge tests: all three are positive exactly inside. */
  lemma InsideEdgesBarycentric(pointA: Vec3, pointB: Vec3, pointC: Vec3, u: real, v: real)
    requires Cross(Sub(pointB, pointA), Sub(pointC, pointB)) != Zero
    ensures var n := Cross(Sub(pointB, pointA), Sub(pointC, pointB));
            InsideEdges(pointA, pointB, pointC, n, Barycentric(pointA, pointB, pointC, u, v))
            <==> 0.0 < u && 0.0 < v && u + v < 1.0
  {
    var n := Cross(Sub(pointB, pointA), Sub(pointC, pointB));
    var p := Barycentric(pointA, pointB, pointC, u, v);
    DotSelfPositive(n);
    assert 0.0 < EdgeTestA(pointA, pointB, n, p) <==> 0.0 < v by {
      EdgeTestABarycentric(pointA, pointB, pointC, u, v);
      PositiveFactorKeepsSign(Dot(n, n), v);
    }
    assert 0.0 < EdgeTestB(pointB, pointC, n, p) <==> u + v < 1.0 by {
      var w := 1.0 - u - v;
      EdgeTestBBarycentric(pointA, pointB, pointC, u, v);
      assert EdgeTestB(pointB, pointC, n, p) == w * Dot(n, n);
      PositiveFactorKeepsSign(Dot(n, n), w);
    }
    assert 0.0 < EdgeTestC(pointC, pointA, n, p) <==> 0.0 < u by {
      EdgeTestCBarycentric(pointA, pointB, pointC, u, v);
      PositiveFactorKeepsSign(Dot(n, n), u);
    }
  }

  /**
   * A ray that is not parallel to the triangle and meets its plane at t,
   * at the point with barycentric coordinates u, v, is reported at t
   * exactly when t is positive and the point is strictly inside.
   */
  lemma TriangleParamBarycentric(pointA: Vec3, pointB: Vec3, pointC: Vec3, ray: Ray, t: real, u: real, v: real)
    requires Cross(Sub(pointB, pointA), Sub(pointC, pointB)) != Zero
    requires Dot(ray.direction, Cross(Sub(pointB, pointA), Sub(pointC, pointB))) != 0.0
    requires ray.At(t) == Barycentric(pointA, pointB, pointC, u, v)
    ensures TriangleParam(pointA, pointB, pointC, Cross(Sub(pointB, pointA), Sub(pointC, pointB)), ray)
         == if 0.0 < t && 0.0 < u && 0.0 < v && u + v < 1.0 then Some(t) else None
  {
    var e1, e2 := Sub(pointB, pointA), Sub(pointC, pointA);
    var n := Cross(e1, Sub(pointC, pointB));
    RawNormalFromEdges(pointA, pointB, pointC);
    assert Sub(ray.At(t), pointA) == Add(Scale(u, e1), Scale(v, e2));
    NormalOrthogonalToEdges(e1, e2);
    DotScaleLeft(u, e1, n);
    DotScaleLeft(v, e2, n);
    assert Dot(Sub(ray.At(t), pointA), n) == 0.0;
    PlaneQuotient(pointA, n, ray, t);
    InsideEdgesBarycentric(pointA, pointB, pointC, u, v);
  }

  /**
   * For a triangle object with non-collinear vertices: a ray that is not
   * parallel to it and reaches its plane at t, at the point with
   * barycentric coordinates u, v, hits it at t exactly when t is positive
   * and the point is strictly inside.
   */
  lemma TriangleHitExactlyInside(num: Numerics, o: Object, ray: Ray, t: real, u: real, v: real)
    requires SqrtLaw(num) && o.shape.Triangle?
    requires Cross(Sub(o.shape.pointB, o.shape.pointA), Sub(o.shape.pointC, o.shape.pointB)) != Zero
    requires Dot(ray.direction, Cross(Sub(o.shape.pointB, o.shape.pointA), Sub(o.shape.pointC, o.shape.pointB))) != 0.0
    requires ray.At(t) == Barycentric(o.shape.pointA, o.shape.pointB, o.shape.pointC, u, v)
    ensures Param(num, o, ray) == if 0.0 < t && 0.0 < u && 0.0 < v && u + v < 1.0 then Some(t) else None
  {
    TriangleNormalizationCancels(num, o.shape.pointA, o.shape.pointB, o.shape.pointC, ray);
    TriangleParamBarycentric(o.shape.pointA, o.shape.pointB, o.shape.pointC, ray, t, u, v);
  }

  /** How far the point at parameter t lies off the plane, measured along n. */
  lemma PlaneOffset(point: Vec3, n: Vec3, ray: Ray, t: real)
    ensures Dot(Sub(ray.At(t), point), n) == t * Dot(ray.direction, n) - Dot(Sub(point, ray.origin), n)
  {
    DotScaleLeft(t, ray.direction, n);
  }

  /** On a ray that is not parallel to the plane, only the quotient puts the point on the plane. */
  lemma PlaneQuotient(point: Vec3, n: Vec3, ray: Ray, t: real)
    requires Dot(ray.direction, n) != 0.0
    ensures Dot(Sub(ray.At(t), point), n) == 0.0 <==> t == Dot(Sub(point, ray.origin), n) / Dot(ray.direction, n)
  {
    PlaneOffset(point, n, ray, t);
  }

  /**
   * Plane::Intersect reports t exactly when the ray is not parallel to the
   * plane, t is not negative and the point at t lies on the plane.
   */
  lemma PlaneParamExact(point: Vec3, n: Vec3, ray: Ray, t: real)
    ensures PlaneParam(point, n, ray) == Some(t)
        <==> Dot(ray.direction, n) != 0.0 && 0.0 <= t && Dot(Sub(ray.At(t), point), n) == 0.0
  {
    if Dot(ray.direction, n) != 0.0 {
      PlaneQuotient(point, n, ray, t);
    }
  }

  /** Every shape accepts only parameters at or past the ray's origin. */
  lemma ParamNonNegative(num: Numerics, o: Object, ray: Ray)
    requires Param(num, o, ray).Some?
    ensures 0.0 <= Param(num, o, ray).value
    ensures o.shape.Triangle? ==> 0.0 < Param(num, o, ray).value
  {
  }

  /**
   * Under the sqrt law and for a unit direction, the distance a hit record
   * stores is the ray parameter, and the hit point is the point at it.
   */
  lemma HitTimeIsParameter(num: Numerics, o: Object, ray: Ray)
    requires SqrtLaw(num) && Dot(ray.direction, ray.direction) == 1.0 && HitOf(num, o, ray).Some?
    ensures var h, t := HitOf(num, o, ray).value, Param(num, o, ray).value;
      h.hitPoint == ray.At(t) && h.time == t
  {
    var t := Param(num, o, ray).value;
    ParamNonNegative(num, o, ray);
    RecordDistance(num, ray, t);
  }

  lemma RecordDistance(num: Numerics, ray: Ray, t: real)
    requires SqrtLaw(num) && Dot(ray.direction, ray.direction) == 1.0 && 0.0 <= t
    ensures Length(num, Sub(ray.origin, ray.At(t))) == t
  {
    assert Sub(ray.origin, ray.At(t)) == Scale(-t, ray.direction);
    DotSelfScale(-t, ray.direction);
    SquareOfNegation(t);
    SqrtOfSquare(num, t);
  }

  /** Every hit on an object carries that object's own material. */
  lemma HitCarriesObjectMaterial(num: Numerics, o: Object, ray: Ray)
    requires HitOf(num, o, ray).Some?
    ensures HitOf(num, o, ray).value.material == o.material
  {
  }

  /**
   * A diagonal placement, the default identity as well as the all-zero
   * matrices the scene is built with, puts every object at the origin.
   */
  lemma DiagonalPlacementAtOrigin(k: real, m: Material, s: Shape)
    ensures Object(Diagonal(k), m, s).Position() == Zero
  {
  }
}

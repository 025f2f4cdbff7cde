/**
 * The decision logic of the ray tracer's driver (RayTracer.cpp): the
 * nearest-hit scene query, the shadow query, Phong shading, and one step of
 * CastRay with its reflection and refraction blends.
 *
 * The scene is a sequence of objects. IntersectInfo and Payload, which the
 * C++ passes by reference, are values passed in and returned. The nested
 * CastRay calls of GetReflection and GetRefraction are the parameter
 * `recurse`: what a nested CastRay does to the payload it is given.
 */
module RayTracer {
  import opened Wrappers
  import opened Vectors
  import opened Objects

  const LightSource := Vec3(-6.0, 6.0, 2.0)
  const LightIntensity := Vec3(1.0, 1.0, 1.0)

  /** CheckIntersection's starting depth: LONG_MAX (2^63 - 1 for a 64-bit long) stored in a float, which rounds it to 2^63. */
  const MaxDepth: real := 9223372036854775808.0

  /** The offset along a secondary ray that lifts its origin off the surface. */
  const Threshold: real := 0.01

  /** GetReflection recurses only while the bounce counter is below this. */
  const MaxBounces: int := 5

  /** The per-ray state CastRay threads through its nested calls. */
  datatype Payload = Payload(color: Vec3, numBounces: int, hasRefracted: bool)

  /** What a nested CastRay does to the payload it is handed. */
  type Recursion = (Ray, Payload) -> Payload

  // ---------------------------------------------------------------------
  // Nearest hit

  predicate Hits(num: Numerics, o: Object, ray: Ray) {
    HitOf(num, o, ray).Some?
  }

  function HitTime(num: Numerics, o: Object, ray: Ray): real
    requires Hits(num, o, ray)
  {
    HitOf(num, o, ray).value.time
  }

  /** Object j is hit closer than the starting depth. */
  predicate NearHit(num: Numerics, objects: seq<Object>, ray: Ray, j: int)
    requires 0 <= j < |objects|
  {
    Hits(num, objects[j], ray) && HitTime(num, objects[j], ray) < MaxDepth
  }

  /**
   * Object k is the nearest hit: no hit is closer, and every hit before it
   * is strictly farther (ties go to the lowest index).
   */
  predicate IsNearest(num: Numerics, objects: seq<Object>, ray: Ray, k: int) {
    0 <= k < |objects| && NearHit(num, objects, ray, k)
    && (forall j :: 0 <= j < |objects| && Hits(num, objects[j], ray) ==>
          HitTime(num, objects[k], ray) <= HitTime(num, objects[j], ray))
    && (forall j :: 0 <= j < k && Hits(num, objects[j], ray) ==>
          HitTime(num, objects[k], ray) < HitTime(num, objects[j], ray))
  }

  /** No object is hit closer than the starting depth. */
  predicate NoNearHit(num: Numerics, objects: seq<Object>, ray: Ray) {
    forall j :: 0 <= j < |objects| && Hits(num, objects[j], ray) ==> MaxDepth <= HitTime(num, objects[j], ray)
  }

  /** The record left behind by testing every object in turn: the last hit's, or the initial one. */
  function LastWritten(num: Numerics, objects: seq<Object>, ray: Ray, info: IntersectInfo): IntersectInfo {
    if |objects| == 0 then info
    else
      match HitOf(num, objects[|objects| - 1], ray)
      case Some(h) => h
      case None => LastWritten(num, objects[..|objects| - 1], ray, info)
  }

  /** The record CheckIntersection reports on a hit. */
  ghost predicate Selected(num: Numerics, objects: seq<Object>, ray: Ray, h: IntersectInfo) {
    (exists k :: IsNearest(num, objects, ray, k) && HitOf(num, objects[k], ray) == Some(h))
    || (|objects| > 0 && NoNearHit(num, objects, ray) && HitOf(num, objects[0], ray) == Some(h))
  }

  /**
   * CheckIntersection: test every object, remember the index of the
   * closest hit, then test that object again. The list must be non-empty,
   * as objects[0] is read whatever happens.
   */
  method CheckIntersection(num: Numerics, objects: seq<Object>, ray: Ray, info: IntersectInfo)
    returns (hit: bool, updated: IntersectInfo)
    requires |objects| > 0
    ensures forall k :: IsNearest(num, objects, ray, k) ==> hit && updated == HitOf(num, objects[k], ray).value
    ensures (exists j :: 0 <= j < |objects| && NearHit(num, objects, ray, j)) ==>
              exists k :: IsNearest(num, objects, ray, k)
    ensures NoNearHit(num, objects, ray) ==>
              hit == Hits(num, objects[0], ray)
              && (hit ==> updated == HitOf(num, objects[0], ray).value)
              && (!hit ==> updated == LastWritten(num, objects, ray, info))
    ensures (forall j :: 0 <= j < |objects| ==> !Hits(num, objects[j], ray)) ==> !hit && updated == info
    ensures hit <==> Selected(num, objects, ray, updated)
  {
    var minDepth := MaxDepth;
    var closestObject := 0;
    var current := info;
    for i := 0 to |objects|
      invariant Scanned(num, objects, ray, i, closestObject, minDepth)
      invariant current == LastWritten(num, objects[..i], ray, info)
    {
      var h;
      h, current := Intersect(num, objects[i], ray, current);
      assert objects[..i + 1][..i] == objects[..i];
      ScanStep(num, objects, ray, i, closestObject, minDepth);
      if h {
        if current.time < minDepth {
          minDepth := current.time;
          closestObject := i;
        }
      }
    }
    assert objects[..|objects|] == objects;
    ClosestDecides(num, objects, ray, closestObject, minDepth < MaxDepth);
    hit, updated := Intersect(num, objects[closestObject], ray, current);
    if forall j :: 0 <= j < |objects| ==> !Hits(num, objects[j], ray) {
      LastWrittenWithoutHits(num, objects, ray, info);
    }
  }

  /**
   * The loop state of CheckIntersection after testing objects[..i]: the
   * depth is still the starting one exactly when no object so far was hit
   * closer (the index is then 0), and otherwise it is the time of the
   * nearest hit so far, whose index is remembered.
   */
  predicate Scanned(num: Numerics, objects: seq<Object>, ray: Ray, i: int, c: int, d: real)
    requires 0 <= i <= |objects|
  {
    0 <= c < |objects| && d <= MaxDepth
    && (d == MaxDepth ==> c == 0 && NoNearHit(num, objects[..i], ray))
    && (d < MaxDepth ==>
          c < i && IsNearest(num, objects[..i], ray, c) && d == HitTime(num, objects[c], ray))
  }

  /** Testing object i keeps the loop state, moving to i when it is hit strictly closer. */
  lemma ScanStep(num: Numerics, objects: seq<Object>, ray: Ray, i: int, c: int, d: real)
    requires 0 <= i < |objects| && Scanned(num, objects, ray, i, c, d)
    ensures Hits(num, objects[i], ray) && HitTime(num, objects[i], ray) < d ==>
              Scanned(num, objects, ray, i + 1, i, HitTime(num, objects[i], ray))
    ensures !(Hits(num, objects[i], ray) && HitTime(num, objects[i], ray) < d) ==>
              Scanned(num, objects, ray, i + 1, c, d)
  {
    assert forall j :: 0 <= j <= i ==> objects[..i + 1][j] == objects[j];
    assert forall j :: 0 <= j < i ==> objects[..i][j] == objects[j];
  }

  /**
   * After the scan, the remembered index is the nearest hit if there is one
   * below the starting depth, and index 0 otherwise; the records selected
   * are exactly that object's hit record.
   */
  lemma ClosestDecides(num: Numerics, objects: seq<Object>, ray: Ray, c: int, near: bool)
    requires 0 <= c < |objects|
    requires near ==> IsNearest(num, objects, ray, c)
    requires !near ==> NoNearHit(num, objects, ray) && c == 0
    ensures forall k :: IsNearest(num, objects, ray, k) ==> k == c
    ensures (exists j :: 0 <= j < |objects| && NearHit(num, objects, ray, j)) ==> near
    ensures forall h :: Selected(num, objects, ray, h) <==> HitOf(num, objects[c], ray) == Some(h)
  {
    forall k | IsNearest(num, objects, ray, k)
      ensures k == c
    {
      if near {
        NearestUnique(num, objects, ray, k, c);
      }
    }
  }

  /** At most one record is selected. */
  lemma SelectedUnique(num: Numerics, objects: seq<Object>, ray: Ray, h1: IntersectInfo, h2: IntersectInfo)
    requires Selected(num, objects, ray, h1) && Selected(num, objects, ray, h2)
    ensures h1 == h2
  {
    if k1 :| IsNearest(num, objects, ray, k1) && HitOf(num, objects[k1], ray) == Some(h1) {
      if k2 :| IsNearest(num, objects, ray, k2) && HitOf(num, objects[k2], ray) == Some(h2) {
        NearestUnique(num, objects, ray, k1, k2);
      }
    }
  }

  /** The nearest hit is unique. */
  lemma NearestUnique(num: Numerics, objects: seq<Object>, ray: Ray, k: int, l: int)
    requires IsNearest(num, objects, ray, k) && IsNearest(num, objects, ray, l)
    ensures k == l
  {
  }

  lemma {:induction false} LastWrittenWithoutHits(num: Numerics, objects: seq<Object>, ray: Ray, info: IntersectInfo)
    requires forall j :: 0 <= j < |objects| ==> !Hits(num, objects[j], ray)
    ensures LastWritten(num, objects, ray, info) == info
  {
    if |objects| > 0 {
      var prefix := objects[..|objects| - 1];
      assert forall j :: 0 <= j < |prefix| ==> prefix[j] == objects[j];
      LastWrittenWithoutHits(num, prefix, ray, info);
    }
  }

  // ---------------------------------------------------------------------
  // Shadows

  /**
   * The shadow ray: its origin is the hit point moved 0.01 of the way
   * towards the light, and its direction is the light's position itself.
   */
  function ShadowRay(info: IntersectInfo): Ray {
    var light := Ray(info.hitPoint, Sub(LightSource, info.hitPoint));
    Ray(light.At(Threshold), LightSource)
  }

  /** The distance from the shadow ray's origin to the light. */
  function LightDistance(num: Numerics, info: IntersectInfo): real {
    Length(num, Sub(LightSource, ShadowRay(info).origin))
  }

  /** Object o is hit by the shadow ray closer than the light. */
  predicate Occludes(num: Numerics, o: Object, info: IntersectInfo) {
    Hits(num, o, ShadowRay(info)) && HitTime(num, o, ShadowRay(info)) < LightDistance(num, info)
  }

  ghost predicate InShadow(num: Numerics, objects: seq<Object>, info: IntersectInfo) {
    exists i :: 0 <= i < |objects| && Occludes(num, objects[i], info)
  }

  /** hasShadow: scan the objects in order and stop at the first one that blocks the light. */
  method HasShadow(num: Numerics, objects: seq<Object>, info: IntersectInfo) returns (shadowed: bool)
    ensures shadowed <==> InShadow(num, objects, info)
  {
    var shadow := ShadowRay(info);
    var lightDistance := Length(num, Sub(LightSource, shadow.origin));
    // The scratch record is only read after a hit has overwritten it.
    var shadowIntersect := info;
    for i := 0 to |objects|
      invariant forall j :: 0 <= j < i ==> !Occludes(num, objects[j], info)
    {
      var h;
      h, shadowIntersect := Intersect(num, objects[i], shadow, shadowIntersect);
      if h && shadowIntersect.time < lightDistance {
        return true;
      }
    }
    return false;
  }

  /**
   * The shadow ray starts on the segment from the hit point to the light,
   * and under the sqrt law the light is 0.99 of the hit point's distance away.
   */
  lemma ShadowRayGeometry(num: Numerics, info: IntersectInfo)
    requires SqrtLaw(num)
    ensures ShadowRay(info).origin == Add(info.hitPoint, Scale(Threshold, Sub(LightSource, info.hitPoint)))
    ensures Sub(LightSource, ShadowRay(info).origin) == Scale(1.0 - Threshold, Sub(LightSource, info.hitPoint))
    ensures LightDistance(num, info) == (1.0 - Threshold) * Length(num, Sub(LightSource, info.hitPoint))
  {
    LengthScale(num, 1.0 - Threshold, Sub(LightSource, info.hitPoint));
  }

  // ---------------------------------------------------------------------
  // Local shading

  /** fmax(0, x). */
  function FMax0(x: real): (r: real)
    ensures 0.0 <= r && x <= r && (r == 0.0 || r == x)
  {
    if 0.0 < x then x else 0.0
  }

  function Ambient(info: IntersectInfo): Vec3 {
    Vec3(LightIntensity.x * info.material.ambient.x,
         LightIntensity.y * info.material.ambient.y,
         LightIntensity.z * info.material.ambient.z)
  }

  /** The unit vector from the hit point towards the light. */
  function ToLight(num: Numerics, info: IntersectInfo): Vec3 {
    Normalize(num, Sub(LightSource, info.hitPoint))
  }

  function DiffuseCosine(num: Numerics, info: IntersectInfo): real {
    FMax0(Dot(ToLight(num, info), info.normal))
  }

  function Diffuse(num: Numerics, info: IntersectInfo): Vec3 {
    var cosTheta := DiffuseCosine(num, info);
    Vec3(LightIntensity.x * info.material.diffuse.x * cosTheta,
         LightIntensity.y * info.material.diffuse.y * cosTheta,
         LightIntensity.z * info.material.diffuse.z * cosTheta)
  }

  function SpecularCosine(num: Numerics, ray: Ray, info: IntersectInfo): real {
    var n := info.normal;
    var l := ToLight(num, info);
    var v := Normalize(num, Sub(ray.origin, info.hitPoint));
    var r := Normalize(num, Sub(Scale(Dot(l, n), Scale(2.0, n)), l));
    FMax0(Dot(r, v))
  }

  function Specular(num: Numerics, ray: Ray, info: IntersectInfo): Vec3 {
    var cosAlpha := SpecularCosine(num, ray, info);
    var m := info.material;
    Vec3(LightIntensity.x * m.specular.x * num.pow(cosAlpha, m.specularIntensity),
         LightIntensity.y * m.specular.y * num.pow(cosAlpha, m.specularIntensity),
         LightIntensity.z * m.specular.z * num.pow(cosAlpha, m.specularIntensity))
  }

  /**
   * GetPhong: the ambient term alone in shadow, else specular + diffuse +
   * ambient. In shadow that is the light intensity times the ambient
   * colour; with non-negative material colours the colour is never negative.
   */
  function Phong(num: Numerics, ray: Ray, info: IntersectInfo, inShadow: bool): (r: Vec3)
    ensures inShadow ==> r == Mul(LightIntensity, info.material.ambient)
    ensures PowLaw(num) && NonNegative(info.material.ambient) ==>
              NonNegative(info.material.diffuse) && NonNegative(info.material.specular) ==> NonNegative(r)
  {
    if !inShadow then
      LitTermsNonNegative(num, ray, info);
      Add(Add(Specular(num, ray, info), Diffuse(num, info)), Ambient(info))
    else Ambient(info)
  }

  /** The only law assumed of pow: a non-negative base gives a non-negative power. */
  ghost predicate PowLaw(num: Numerics) {
    forall x, y :: 0.0 <= x ==> 0.0 <= num.pow(x, y)
  }

  /** Both cosine factors of the Phong model are clamped at zero. */
  lemma CosinesNonNegative(num: Numerics, ray: Ray, info: IntersectInfo)
    ensures 0.0 <= DiffuseCosine(num, info) && Dot(ToLight(num, info), info.normal) <= DiffuseCosine(num, info)
    ensures 0.0 <= SpecularCosine(num, ray, info)
  {
  }

  /** A surface facing away from the light gets no diffuse light. */
  lemma DiffuseVanishesFacingAway(num: Numerics, info: IntersectInfo)
    requires Dot(ToLight(num, info), info.normal) <= 0.0
    ensures Diffuse(num, info) == Zero
  {
  }

  /**
   * In shadow only the ambient term (light intensity times the ambient
   * colour) is left; lit, the specular and diffuse terms are added to it,
   * and with non-negative material colours these can only brighten.
   */
  lemma ShadowOnlyRemovesLight(num: Numerics, ray: Ray, info: IntersectInfo)
    ensures Phong(num, ray, info, true) == Mul(LightIntensity, info.material.ambient)
    ensures Phong(num, ray, info, false)
         == Add(Add(Specular(num, ray, info), Diffuse(num, info)), Phong(num, ray, info, true))
    ensures PowLaw(num) && NonNegative(info.material.diffuse) && NonNegative(info.material.specular) ==>
              NonNegative(Sub(Phong(num, ray, info, false), Phong(num, ray, info, true)))
  {
    LitTermsNonNegative(num, ray, info);
  }

  /** With non-negative diffuse and specular colours, the two lit terms are non-negative. */
  lemma LitTermsNonNegative(num: Numerics, ray: Ray, info: IntersectInfo)
    ensures PowLaw(num) && NonNegative(info.material.diffuse) && NonNegative(info.material.specular) ==>
              NonNegative(Specular(num, ray, info)) && NonNegative(Diffuse(num, info))
  {
    if PowLaw(num) && NonNegative(info.material.diffuse) && NonNegative(info.material.specular) {
      var m := info.material;
      var cosTheta := DiffuseCosine(num, info);
      var p := num.pow(SpecularCosine(num, ray, info), m.specularIntensity);
      MulNonNegative(m.diffuse.x, cosTheta);
      MulNonNegative(m.diffuse.y, cosTheta);
      MulNonNegative(m.diffuse.z, cosTheta);
      MulNonNegative(m.specular.x, p);
      MulNonNegative(m.specular.y, p);
      MulNonNegative(m.specular.z, p);
    }
  }

  // ---------------------------------------------------------------------
  // Reflection and refraction

  /** weight * a + (1 - weight) * b, component-wise. */
  function Blend(weight: real, a: Vec3, b: Vec3): Vec3 {
    Add(Scale(weight, a), Scale(1.0 - weight, b))
  }

  /** A secondary ray from p along dir, its origin moved 0.01 along dir. */
  function OffsetRay(p: Vec3, dir: Vec3): Ray {
    Ray(Ray(p, dir).At(Threshold), dir)
  }

  /** The mirror direction d - 2 (d . n) n. */
  function ReflectionDirection(d: Vec3, n: Vec3): Vec3 {
    Sub(d, Scale(2.0 * Dot(d, n), n))
  }

  function ReflectionRay(ray: Ray, info: IntersectInfo): Ray {
    OffsetRay(info.hitPoint, ReflectionDirection(ray.direction, info.normal))
  }

  /** A colour together with the payload as it stands afterwards. */
  datatype Shaded = Shaded(color: Vec3, payload: Payload)

  /**
   * What GetReflection computes: below the bounce limit it casts the
   * mirror ray and then increments the counter; the colour is the payload's
   * colour blended with the local colour by the material's reflection.
   */
  function Reflected(ray: Ray, info: IntersectInfo, payload: Payload, color: Vec3, recurse: Recursion): Shaded {
    var after :=
      if payload.numBounces < MaxBounces then
        var back := recurse(ReflectionRay(ray, info), payload);
        back.(numBounces := back.numBounces + 1)
      else payload;
    Shaded(Blend(info.material.reflection, after.color, color), after)
  }

  /** GetReflection, with the payload as an in/out parameter. */
  method GetReflection(ray: Ray, info: IntersectInfo, payload: Payload, color: Vec3, recurse: Recursion)
    returns (reflectMix: Vec3, updated: Payload)
    ensures Shaded(reflectMix, updated) == Reflected(ray, info, payload, color, recurse)
  {
    updated := payload;
    if updated.numBounces < MaxBounces {
      var direction := Sub(ray.direction, Scale(2.0 * Dot(ray.direction, info.normal), info.normal));
      var withOffset := Ray(info.hitPoint, direction).At(Threshold);
      var reflection := Ray(withOffset, direction);
      updated := recurse(reflection, updated);
      updated := updated.(numBounces := updated.numBounces + 1);
    }
    var reflection := info.material.reflection;
    var reflColor := Scale(reflection, updated.color);
    reflectMix := Add(reflColor, Scale(1.0 - reflection, color));
  }

  /**
   * GetRefraction's ratio -1/refraction is -infinity in float arithmetic
   * when refraction is 0; the radial term is then positive only if
   * (n . -d)^2 exceeds 1, a case whose ray is built from infinities. The
   * model excludes that case.
   */
  predicate RefractionDefined(ray: Ray, info: IntersectInfo) {
    info.material.refraction != 0.0 || Square(Dot(info.normal, Neg(ray.direction))) <= 1.0
  }

  /** The refraction branch is entered. */
  predicate RefractionFires(info: IntersectInfo, payload: Payload) {
    info.material.refraction > 0.0 || !payload.hasRefracted
  }

  /** The radial term 1 - ratio^2 (1 - (n . -d)^2) for ratio = -1/refraction. */
  function RadialDistance(ray: Ray, info: IntersectInfo): real
    requires info.material.refraction != 0.0
  {
    var ratio := -1.0 / info.material.refraction;
    1.0 - Square(ratio) * (1.0 - Square(Dot(info.normal, Neg(ray.direction))))
  }

  /** The refracted direction (ratio (n . -d) - sqrt(radial)) n - ratio (-d). */
  function RefractionDirection(num: Numerics, ray: Ray, info: IntersectInfo): Vec3
    requires info.material.refraction != 0.0
  {
    var ratio := -1.0 / info.material.refraction;
    var cosine := Dot(info.normal, Neg(ray.direction));
    Sub(Scale(ratio * cosine - num.sqrt(RadialDistance(ray, info)), info.normal), Scale(ratio, Neg(ray.direction)))
  }

  /** The refraction ray is cast: the branch fires and the radial term is positive. */
  predicate Refracts(ray: Ray, info: IntersectInfo, payload: Payload) {
    RefractionFires(info, payload) && info.material.refraction != 0.0 && RadialDistance(ray, info) > 0.0
  }

  /**
   * What GetRefraction computes: when the branch fires it marks the
   * payload as refracted, casts the refraction ray if the radial term is
   * positive, and blends by the refractive index (by 0 otherwise).
   */
  function Refracted(num: Numerics, ray: Ray, info: IntersectInfo, payload: Payload, reflectMix: Vec3,
                     recurse: Recursion): Shaded
    requires RefractionDefined(ray, info)
  {
    if !RefractionFires(info, payload) then Shaded(reflectMix, payload)
    else
      var marked := payload.(hasRefracted := true);
      if Refracts(ray, info, payload) then
        var back := recurse(OffsetRay(info.hitPoint, RefractionDirection(num, ray, info)), marked);
        Shaded(Blend(info.material.refractiveIndex, back.color, reflectMix), back)
      else Shaded(Blend(0.0, marked.color, reflectMix), marked)
  }

  /** GetRefraction, with the payload as an in/out parameter. */
  method GetRefraction(num: Numerics, ray: Ray, info: IntersectInfo, payload: Payload, reflectMix: Vec3,
                       recurse: Recursion)
    returns (mix: Vec3, updated: Payload)
    requires RefractionDefined(ray, info)
    ensures Shaded(mix, updated) == Refracted(num, ray, info, payload, reflectMix, recurse)
  {
    updated := payload;
    if info.material.refraction > 0.0 || !updated.hasRefracted {
      updated := updated.(hasRefracted := true);
      var refractionLevel := 0.0;
      if info.material.refraction != 0.0 {
        var ratio := -1.0 / info.material.refraction;
        var cosine := Dot(info.normal, Neg(ray.direction));
        var radialDistance := 1.0 - Square(ratio) * (1.0 - Square(cosine));
        assert radialDistance == RadialDistance(ray, info);
        if radialDistance > 0.0 {
          assert Refracts(ray, info, payload);
          refractionLevel := info.material.refractiveIndex;
          var direction := Sub(Scale(ratio * cosine - num.sqrt(radialDistance), info.normal),
                               Scale(ratio, Neg(ray.direction)));
          var withOffset := Ray(info.hitPoint, direction).At(Threshold);
          assert Ray(withOffset, direction) == OffsetRay(info.hitPoint, RefractionDirection(num, ray, info));
          updated := recurse(Ray(withOffset, direction), updated);
        }
      }
      mix := Add(Scale(refractionLevel, updated.color), Scale(1.0 - refractionLevel, reflectMix));
    } else {
      mix := reflectMix;
    }
  }

  // ---------------------------------------------------------------------
  // One step of CastRay

  /** The payload a hit on record h leaves: shade, reflect, refract, store the colour. */
  ghost function ShadeHit(num: Numerics, objects: seq<Object>, ray: Ray, payload: Payload, h: IntersectInfo,
                          recurse: Recursion): Payload
    requires RefractionDefined(ray, h)
  {
    var color := Phong(num, ray, h, InShadow(num, objects, h));
    var reflected := Reflected(ray, h, payload, color, recurse);
    var refracted := Refracted(num, ray, h, reflected.payload, reflected.color, recurse);
    refracted.payload.(color := refracted.color)
  }

  /** Every hit of the ray on the scene leaves refraction well defined. */
  predicate SceneRefractionDefined(num: Numerics, objects: seq<Object>, ray: Ray) {
    forall i :: 0 <= i < |objects| && Hits(num, objects[i], ray) ==>
      RefractionDefined(ray, HitOf(num, objects[i], ray).value)
  }

  /**
   * CastRay, one level deep: on a miss the payload turns black and the
   * result is -1; on a hit the payload carries the shaded, reflected and
   * refracted colour and the result is the hit's distance.
   */
  method CastRayStep(num: Numerics, objects: seq<Object>, ray: Ray, payload: Payload, info: IntersectInfo,
                     recurse: Recursion)
    returns (time: real, updated: Payload)
    requires |objects| > 0 && SceneRefractionDefined(num, objects, ray)
    ensures (forall h :: !Selected(num, objects, ray, h)) ==>
              time == -1.0 && updated == payload.(color := Zero)
    ensures forall h :: Selected(num, objects, ray, h) ==>
              time == h.time && updated == ShadeHit(num, objects, ray, payload, h, recurse)
  {
    var hit, record := CheckIntersection(num, objects, ray, info);
    forall h | Selected(num, objects, ray, h)
      ensures h == record
    {
      SelectedUnique(num, objects, ray, h, record);
    }
    if hit {
      var shadowed := HasShadow(num, objects, record);
      var color := Phong(num, ray, record, shadowed);
      var reflectMix, afterReflection := GetReflection(ray, record, payload, color, recurse);
      var refractMix, afterRefraction := GetRefraction(num, ray, record, afterReflection, reflectMix, recurse);
      updated := afterRefraction.(color := refractMix);
      time := record.time;
    } else {
      updated := payload.(color := Vec3(0.0, 0.0, 0.0));
      time := -1.0;
    }
  }

  // ---------------------------------------------------------------------
  // Properties of the shading step

  /** A hit that CheckIntersection selects lies at a non-negative distance. */
  lemma SelectedTimeNonNegative(num: Numerics, objects: seq<Object>, ray: Ray, h: IntersectInfo)
    requires SqrtLaw(num) && Selected(num, objects, ray, h)
    ensures 0.0 <= h.time
  {
    DotSelfNonNegative(Sub(ray.origin, h.hitPoint));
    var k :| (IsNearest(num, objects, ray, k) && HitOf(num, objects[k], ray) == Some(h))
             || (k == 0 && |objects| > 0 && NoNearHit(num, objects, ray) && HitOf(num, objects[0], ray) == Some(h));
  }

  lemma BlendComponent(w: real, x: real, y: real)
    requires 0.0 <= w <= 1.0 && 0.0 <= x <= 1.0 && 0.0 <= y <= 1.0
    ensures 0.0 <= w * x + (1.0 - w) * y <= 1.0
  {
    MulNonNegative(w, x);
    MulNonNegative(1.0 - w, y);
    MulNonNegative(w, 1.0 - x);
    MulNonNegative(1.0 - w, 1.0 - y);
  }

  /** Blending two displayable colours by a weight in [0, 1] gives a displayable colour. */
  lemma BlendInUnitCube(w: real, a: Vec3, b: Vec3)
    requires 0.0 <= w <= 1.0 && InUnitCube(a) && InUnitCube(b)
    ensures InUnitCube(Blend(w, a, b))
  {
    BlendComponent(w, a.x, b.x);
    BlendComponent(w, a.y, b.y);
    BlendComponent(w, a.z, b.z);
  }

  /** Blending by 0 keeps the second colour and blending by 1 the first. */
  lemma BlendEnds(a: Vec3, b: Vec3)
    ensures Blend(0.0, a, b) == b && Blend(1.0, a, b) == a
  {
  }

  lemma DotSubLeft(u: Vec3, v: Vec3, w: Vec3)
    ensures Dot(Sub(u, v), w) == Dot(u, w) - Dot(v, w)
  {
  }

  lemma DotSubSelf(u: Vec3, v: Vec3)
    ensures Dot(Sub(u, v), Sub(u, v)) == Dot(u, u) - 2.0 * Dot(u, v) + Dot(v, v)
  {
  }

  lemma DoubledSquare(c: real)
    ensures 2.0 * (2.0 * c) * c == Square(2.0 * c)
  {
  }

  /**
   * The law of reflection: for a unit normal, the mirror direction has the
   * same length as the incoming one and the opposite normal component.
   */
  lemma ReflectionLaw(d: Vec3, n: Vec3)
    requires Dot(n, n) == 1.0
    ensures Dot(ReflectionDirection(d, n), n) == -Dot(d, n)
    ensures Dot(ReflectionDirection(d, n), ReflectionDirection(d, n)) == Dot(d, d)
  {
    var k := 2.0 * Dot(d, n);
    DotSubLeft(d, Scale(k, n), n);
    DotScaleLeft(k, n, n);
    DotSubSelf(d, Scale(k, n));
    DotScaleRight(d, k, n);
    DotSelfScale(k, n);
    DoubledSquare(Dot(d, n));
  }

  /** Reflecting twice about the same unit normal gives back the incoming direction. */
  lemma ReflectionInvolution(d: Vec3, n: Vec3)
    requires Dot(n, n) == 1.0
    ensures ReflectionDirection(ReflectionDirection(d, n), n) == d
  {
    ReflectionLaw(d, n);
  }

  /** The mirror ray starts 0.01 along the mirror direction from the hit point. */
  lemma ReflectionRayFromHit(ray: Ray, info: IntersectInfo)
    ensures ReflectionRay(ray, info).direction == ReflectionDirection(ray.direction, info.normal)
    ensures ReflectionRay(ray, info).origin
         == Add(info.hitPoint, Scale(Threshold, ReflectionDirection(ray.direction, info.normal)))
  {
  }

  /**
   * At the bounce limit no mirror ray is cast: the payload is kept and its
   * colour, whatever it holds, is blended in, for every nested behaviour.
   */
  lemma ReflectionStopsAtLimit(ray: Ray, info: IntersectInfo, payload: Payload, color: Vec3, recurse: Recursion)
    requires MaxBounces <= payload.numBounces
    ensures Reflected(ray, info, payload, color, recurse)
         == Shaded(Blend(info.material.reflection, payload.color, color), payload)
  {
  }

  /** Below the limit the mirror ray is cast and the counter ends one above what the nested call left. */
  lemma ReflectionCountsBounce(ray: Ray, info: IntersectInfo, payload: Payload, color: Vec3, recurse: Recursion)
    requires payload.numBounces < MaxBounces
    ensures var back := recurse(ReflectionRay(ray, info), payload);
            Reflected(ray, info, payload, color, recurse) == Shaded(Blend(info.material.reflection, back.color, color),
                                                                    back.(numBounces := back.numBounces + 1))
  {
  }

  /** A material that does not reflect (every default material) shows its local colour. */
  lemma NoReflectionKeepsColor(ray: Ray, info: IntersectInfo, payload: Payload, color: Vec3, recurse: Recursion)
    requires info.material.reflection == 0.0
    ensures Reflected(ray, info, payload, color, recurse).color == color
  {
    BlendEnds(Reflected(ray, info, payload, color, recurse).payload.color, color);
  }

  /**
   * A hit on a default material (no reflection, white ambient) keeps its
   * local colour through GetReflection, and in shadow it shows the light's
   * intensity.
   */
  lemma DefaultMaterialShading(num: Numerics, ray: Ray, info: IntersectInfo, payload: Payload, color: Vec3,
                               recurse: Recursion, refraction: real, refractiveIndex: real)
    requires info.material == DefaultMaterial(refraction, refractiveIndex)
    ensures Reflected(ray, info, payload, color, recurse).color == color
    ensures Phong(num, ray, info, true) == LightIntensity
  {
    NoReflectionKeepsColor(ray, info, payload, color, recurse);
  }

  /**
   * When no refraction ray is cast, the reflection mix is the colour and
   * the payload leaves marked as refracted; a material with refraction 0
   * (the planes and the triangle of the scene) never casts one.
   */
  lemma NoRefractionRayKeepsReflection(num: Numerics, ray: Ray, info: IntersectInfo, payload: Payload,
                                        reflectMix: Vec3, recurse: Recursion)
    requires RefractionDefined(ray, info) && !Refracts(ray, info, payload)
    ensures Refracted(num, ray, info, payload, reflectMix, recurse) == Shaded(reflectMix, payload.(hasRefracted := true))
    ensures info.material.refraction == 0.0 ==> !Refracts(ray, info, payload)
  {
    BlendEnds(payload.color, reflectMix);
  }

  /** A refraction ray is cast with the payload already marked, and its colour is blended by the refractive index. */
  lemma RefractionRayMarksPayload(num: Numerics, ray: Ray, info: IntersectInfo, payload: Payload,
                                  reflectMix: Vec3, recurse: Recursion)
    requires RefractionDefined(ray, info) && Refracts(ray, info, payload)
    ensures var marked := payload.(hasRefracted := true);
            var back := recurse(OffsetRay(info.hitPoint, RefractionDirection(num, ray, info)), marked);
            Refracted(num, ray, info, payload, reflectMix, recurse)
            == Shaded(Blend(info.material.refractiveIndex, back.color, reflectMix), back)
  {
  }

  lemma RefractedLengthIdentity(m: real, e: real, c: real, s: real)
    requires m == e * c - s
    ensures m * m - 2.0 * m * e * c + e * e == s * s + e * e * (1.0 - c * c)
  {
  }

  /**
   * Snell's law in vector form: for a unit direction and a unit normal, the
   * refracted direction is a unit vector and its normal component is
   * -sqrt of the radial term, so it crosses to the far side of the surface.
   */
  lemma RefractionDirectionIsUnit(num: Numerics, ray: Ray, info: IntersectInfo)
    requires SqrtLaw(num) && info.material.refraction != 0.0 && 0.0 < RadialDistance(ray, info)
    requires Dot(ray.direction, ray.direction) == 1.0 && Dot(info.normal, info.normal) == 1.0
    ensures Dot(RefractionDirection(num, ray, info), info.normal) == -num.sqrt(RadialDistance(ray, info))
    ensures Dot(RefractionDirection(num, ray, info), RefractionDirection(num, ray, info)) == 1.0
  {
    var n, d := info.normal, ray.direction;
    var e := -1.0 / info.material.refraction;
    var c := Dot(n, Neg(d));
    var s := num.sqrt(RadialDistance(ray, info));
    var m := e * c - s;
    var t := RefractionDirection(num, ray, info);
    assert t == Add(Scale(m, n), Scale(e, d));
    assert Dot(d, n) == -c;
    assert Dot(n, d) == -c;
    DotScaleLeft(m, n, n);
    DotScaleLeft(e, d, n);
    assert Dot(t, n) == m * Dot(n, n) + e * Dot(d, n);
    RefractedUnitSquare(m, e, n, d);
    DotScaleRight(n, e, d);
    assert Dot(t, t) == m * m - 2.0 * m * e * c + e * e;
    RefractedLengthIdentity(m, e, c, s);
    assert s * s == RadialDistance(ray, info);
  }

  lemma RefractedUnitSquare(m: real, e: real, n: Vec3, d: Vec3)
    requires Dot(n, n) == 1.0 && Dot(d, d) == 1.0
    ensures var t := Add(Scale(m, n), Scale(e, d));
            Dot(t, t) == m * m + 2.0 * m * e * Dot(n, d) + e * e
  {
  }

  /**
   * A unit ray direction and a hit normal of length at most 1 keep
   * (n . -d)^2 at most 1, so refraction is well defined.
   */
  lemma UnitRayRefractionDefined(ray: Ray, info: IntersectInfo)
    requires Dot(ray.direction, ray.direction) == 1.0 && Dot(info.normal, info.normal) <= 1.0
    ensures RefractionDefined(ray, info)
  {
    var d := Neg(ray.direction);
    assert Dot(d, d) == 1.0;
    CauchySchwarz(info.normal, d);
  }

  /**
   * Every hit normal has length at most 1: spheres and triangles store a
   * normalised vector, planes the normal they were built with.
   */
  lemma HitNormalAtMostUnit(num: Numerics, o: Object, ray: Ray)
    requires SqrtLaw(num) && HitOf(num, o, ray).Some?
    requires o.shape.Plane? ==> Dot(o.shape.normal, o.shape.normal) <= 1.0
    ensures Dot(HitOf(num, o, ray).value.normal, HitOf(num, o, ray).value.normal) <= 1.0
  {
    var p := ray.At(Param(num, o, ray).value);
    match o.shape
    case Sphere(origin, _) => NormalizeAtMostUnit(num, Sub(p, origin));
    case Plane(_, _) =>
    case Triangle(a, b, c) => NormalizeAtMostUnit(num, Cross(Sub(b, a), Sub(c, b)));
  }

  /**
   * The rays Render casts have normalised directions; with plane normals of
   * length at most 1, CastRayStep's precondition then holds.
   */
  lemma UnitRaySceneRefractionDefined(num: Numerics, objects: seq<Object>, ray: Ray)
    requires SqrtLaw(num) && Dot(ray.direction, ray.direction) == 1.0
    requires forall i :: 0 <= i < |objects| && objects[i].shape.Plane? ==>
               Dot(objects[i].shape.normal, objects[i].shape.normal) <= 1.0
    ensures SceneRefractionDefined(num, objects, ray)
  {
    forall i | 0 <= i < |objects| && Hits(num, objects[i], ray)
      ensures RefractionDefined(ray, HitOf(num, objects[i], ray).value)
    {
      HitNormalAtMostUnit(num, objects[i], ray);
      UnitRayRefractionDefined(ray, HitOf(num, objects[i], ray).value);
    }
  }
}

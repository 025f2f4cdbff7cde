# Recursive ray tracer: a Dafny model of its decision logic

This project models the core of a small recursive ray tracer written in C++ with glm.
A scene is a list of spheres, planes and triangles, each with a Phong material.

For every ray the tracer does the following:
- finds the nearest object the ray hits (`CheckIntersection`);
- decides whether that point is in shadow (`hasShadow`);
- shades it with the Phong model (`GetPhong`);
- blends in a mirror ray's colour (`GetReflection`) and a refraction ray's colour (`GetRefraction`);
- stores the result in the per-ray payload (`CastRay`).

The model works over Dafny `real` in place of `float`. The constructors of `Material` (Object.h:16-23) and of the three shapes (Object.h:55-58, 70-73, 86-90) only copy their arguments into fields. They are the datatype constructors `Material`, `Sphere`, `Plane` and `Triangle`, and `Object` pairs a shape with its placement and material.

The three files are:

- `vectors.dfy` is the slice of glm that is used: `Vec3`, dot and cross products, and a 4x4 matrix.
  - `sqrt` and `pow` are fields of a `Numerics` value passed to every operation that needs them.
  - `SqrtLaw` says that `sqrt` returns a non-negative root whose square is its argument.
  - `length` and `normalize` are built on that `sqrt`.
- `object.dfy` holds the material, the ray, the hit record (`IntersectInfo`), the three shapes and their intersection tests.
  - Each test is a function giving the accepted ray parameter, or `None`.
  - `HitOf` gives the record a hit writes.
  - The method `Intersect` plays the C++ in/out record: on a miss the record is unchanged.
- `raytracer.dfy` holds the driver:
  - the nearest-hit loop and the shadow loop, as methods with loop invariants;
  - Phong shading as functions;
  - `GetReflection` and `GetRefraction` as methods that match the specification functions `Reflected` and `Refracted`;
  - one step of `CastRay`.
  - The nested `CastRay` calls are a parameter `recurse`, which says what a nested cast does to the payload it is given.

The model keeps these behaviours of the code:
- `CheckIntersection` reads `objects[0]` whatever happens, so the model requires a non-empty scene.
  - When every hit lies at or beyond the starting depth (`LONG_MAX` stored in a float, 2^63 where `long` has 64 bits), the code tests `objects[0]` again and returns its result.
- At the bounce limit, `GetReflection` casts no ray, but it still blends the payload's current colour in by the material's reflection.
- The nested `CastRay` of `GetReflection` updates the caller's own payload.
- The counter is incremented only after the nested call returns, and the refraction branch fires again on every material with positive refraction. So the counter does not bound the depth of recursion.
- The shadow ray's direction is the light's position itself. Its distance to the light is measured from the offset origin.

## Model

| member | source | states |
|---|---|---|
| Vectors.NormalizeIsPositiveScale | Object.cpp:80 | under the sqrt law, `normalize` multiplies its argument by a positive factor |
| Vectors.NormalizeAtMostUnit | Object.cpp:43 | a normalised vector has squared length 1, or is the zero vector (at most 1 in both cases) |
| Vectors.LengthScale | RayTracer.cpp:65 | `length(k v) = abs(k) length(v)` under the sqrt law |
| Objects.Intersect | Object.cpp:18-111 | returns true exactly when the shape accepts a parameter; a hit writes the point at that parameter, its distance from the ray origin, the shape's normal and the object's material; a miss returns the record unchanged |
| Objects.BaseIntersect | Object.h:33 | the base object always reports a hit and writes nothing |
| Objects.DiscriminantNeedsDirection | Object.cpp:24-33 | a positive discriminant implies a non-zero direction (`a > 0`), so the division by `2a` is defined |
| Objects.SphereRootSolvesQuadratic | Object.cpp:20-37 | an accepted sphere parameter is a non-negative root of `a t^2 + b t + c`, and is the smaller of the two roots |
| Objects.SphereFromInsideMisses | Object.cpp:33-37 | a ray starting strictly inside a sphere never hits it |
| Objects.SphereAheadHits | Object.cpp:26-37 | a ray starting outside and heading towards the centre hits at a positive parameter whenever the discriminant is positive |
| Objects.SphereHitOnSurface | Object.cpp:41 | a sphere hit point lies at distance `radius` from the centre |
| Objects.SphereNormalOutward | Object.cpp:43 | the sphere normal is a positive multiple of hit point minus centre |
| Objects.PlaneHitOnPlane | Object.cpp:56-66 | a plane hit point satisfies `dot(hit - point, normal) == 0`, and the stored normal is the plane's own |
| Objects.TriangleHitInPlane | Object.cpp:82-90 | a triangle hit point lies in the triangle's plane |
| Objects.TriangleParamScaleInvariant | Object.cpp:82-99 | scaling the normal by any positive factor changes neither the triangle's decision nor its parameter |
| Objects.TriangleNormalizationCancels | Object.cpp:80-99 | under the sqrt law, the triangle test with the normalised normal equals the test with the raw cross product |
| Objects.TriangleWinding | Object.h:86-90 | listing the vertices as A, C, B flips the unnormalised normal |
| Objects.TriangleEdgeIsMiss | Object.cpp:95-101 | no point on the line through any edge is ever a triangle hit |
| Objects.EdgeTestABarycentric | Object.cpp:76-95 | against the unnormalised normal n, the first edge determinant at the plane point with barycentric coordinates u, v is v times the squared length of n |
| Objects.EdgeTestBBarycentric | Object.cpp:77-96 | the second edge determinant at that point is (1 - u - v) times the squared length of n |
| Objects.EdgeTestCBarycentric | Object.cpp:78-97 | the third edge determinant at that point is u times the squared length of n |
| Objects.InsideEdgesBarycentric | Object.cpp:95-101 | for non-collinear vertices, all three determinants are positive exactly when 0 < u, 0 < v and u + v < 1, that is, exactly for the points strictly inside the triangle |
| Objects.TriangleParamBarycentric | Object.cpp:82-101 | with the unnormalised normal, a ray not parallel to the triangle that meets its plane at t, at the point u, v, is reported at t exactly when t > 0 and the point is strictly inside; otherwise it is a miss |
| Objects.TriangleHitExactlyInside | Object.cpp:74-101 | the same decision for a triangle object with its normalised normal, under the sqrt law: every interior crossing ahead of the origin is found |
| Objects.PlaneParamExact | Object.cpp:56-62 | the plane test reports t exactly when the ray is not parallel to the plane, t is not negative and the point at t lies on the plane |
| Objects.ParamNonNegative | Object.cpp:35-88 | accepted parameters are at least 0; for triangles they are strictly positive |
| Objects.HitTimeIsParameter | Object.cpp:41-42 | for a unit direction under the sqrt law, the stored distance equals the ray parameter and the hit point is the point at it |
| Objects.HitCarriesObjectMaterial | Object.h:37 | every hit record carries the object's own material |
| Objects.DiagonalPlacementAtOrigin | Object.h:29-36 | an object with a diagonal placement, the default `glm::mat4(1.0f)` or the scene's `glm::mat4(0.0f)`, is positioned at the origin |
| RayTracer.CheckIntersection | RayTracer.cpp:33-47 | if the nearest hit is below the starting depth, returns true with its record (ties go to the lowest index); if every hit is at or beyond that depth, returns the result of testing `objects[0]` again (or the last written record when that misses); if nothing hits, returns false with the record unchanged |
| RayTracer.ScanStep | RayTracer.cpp:38-45 | one loop step keeps "the remembered index is the nearest hit so far, strictly nearer than the earlier ones" |
| RayTracer.ClosestDecides | RayTracer.cpp:35-47 | after the loop, the selected records are exactly the record of the remembered object |
| RayTracer.NearestUnique | RayTracer.cpp:38-45 | the nearest hit is unique |
| RayTracer.SelectedUnique | RayTracer.cpp:47 | at most one record is selected |
| RayTracer.LastWrittenWithoutHits | RayTracer.cpp:38-45 | a scan in which nothing hits leaves the record unchanged |
| RayTracer.SelectedTimeNonNegative | RayTracer.cpp:214 | under the sqrt law, the distance `CastRay` returns on a hit is never negative |
| RayTracer.HasShadow | RayTracer.cpp:56-76 | returns true exactly when some object hits the shadow ray closer than the light |
| RayTracer.ShadowRayGeometry | RayTracer.cpp:59-65 | the shadow ray starts 0.01 of the way from the hit point to the light, and the light is 0.99 of the hit point's distance away from it |
| RayTracer.FMax0 | RayTracer.cpp:90 | `fmax(0, x)` is at least 0 and at least x, and is one of them |
| RayTracer.CosinesNonNegative | RayTracer.cpp:90-102 | the diffuse and specular cosine factors are never negative |
| RayTracer.DiffuseVanishesFacingAway | RayTracer.cpp:90-93 | a surface facing away from the light gets no diffuse light |
| RayTracer.Phong | RayTracer.cpp:78-124 | in shadow the colour is the light intensity times the ambient colour; with non-negative material colours and a `pow` that keeps non-negative bases non-negative, the colour is never negative |
| RayTracer.LitTermsNonNegative | RayTracer.cpp:89-105 | with non-negative diffuse and specular colours, the diffuse and specular terms are never negative |
| RayTracer.ShadowOnlyRemovesLight | RayTracer.cpp:95-119 | in shadow the colour is exactly intensity times ambient; lit, specular and diffuse are added to it, and with non-negative materials they only brighten |
| RayTracer.GetReflection | RayTracer.cpp:126-147 | computes `Reflected`: below 5 bounces, cast the mirror ray and then add 1 to the counter; blend the payload colour with the local colour by the material's reflection |
| RayTracer.ReflectionLaw | RayTracer.cpp:134 | for a unit normal, the mirror direction keeps the length and negates the normal component |
| RayTracer.ReflectionInvolution | RayTracer.cpp:134 | reflecting twice about a unit normal gives back the incoming direction |
| RayTracer.ReflectionRayFromHit | RayTracer.cpp:134-136 | the mirror ray starts 0.01 along the mirror direction from the hit point |
| RayTracer.ReflectionStopsAtLimit | RayTracer.cpp:128-146 | at 5 bounces or more the payload is kept and its colour is blended in, whatever a nested call would do |
| RayTracer.ReflectionCountsBounce | RayTracer.cpp:128-139 | below the limit the counter ends exactly one above what the nested call left |
| RayTracer.NoReflectionKeepsColor | RayTracer.cpp:142-144 | reflection 0 returns the local colour |
| RayTracer.BlendInUnitCube | RayTracer.cpp:142-144 | a blend of two colours in [0,1]^3 by a weight in [0,1] stays in [0,1]^3 |
| RayTracer.BlendEnds | RayTracer.cpp:175 | weight 0 gives the second colour and weight 1 the first |
| RayTracer.DefaultMaterialShading | Object.cpp:3-9 | a default material reflects nothing (local colour kept) and its white ambient gives the light's intensity in shadow |
| RayTracer.GetRefraction | RayTracer.cpp:149-183 | computes `Refracted`: when `refraction > 0` or the payload has not refracted, mark it, cast the refraction ray if the radial term is positive, and blend by the refractive index; otherwise return the reflection mix |
| RayTracer.NoRefractionRayKeepsReflection | RayTracer.cpp:151-182 | when no refraction ray is cast, the result is the reflection mix and the payload is marked as refracted; refraction 0 never casts one |
| RayTracer.RefractionRayMarksPayload | RayTracer.cpp:153-175 | the refraction ray is cast with the payload already marked, and its colour is blended in by the refractive index |
| RayTracer.RefractionDirectionIsUnit | RayTracer.cpp:155-167 | for unit direction and normal, the refracted direction has length 1 and normal component `-sqrt(radial)` |
| RayTracer.UnitRayRefractionDefined | RayTracer.cpp:155-160 | for a unit direction and a normal of length at most 1, `(n . -d)^2 <= 1` (Cauchy-Schwarz) |
| RayTracer.HitNormalAtMostUnit | Object.cpp:43-105 | under the sqrt law, every hit normal has length at most 1: spheres and triangles normalise theirs, and a plane's must be at most unit itself |
| RayTracer.UnitRaySceneRefractionDefined | RayTracer.cpp:259 | rays with normalised directions, as Render casts them, meet `CastRayStep`'s precondition when every plane normal has length at most 1 |
| RayTracer.CastRayStep | RayTracer.cpp:196-222 | on a miss the payload turns black and -1 is returned; on a hit, the selected record's distance is returned and the payload holds the shaded, reflected and refracted colour |

## Left out

- Floating point: values are reals, with no rounding, NaN or infinities.
- `sqrt` and the specular `pow(cosAlpha, specularIntensity)` (RayTracer.cpp:103-105) are not computed. They are the parameters `num.sqrt` and `num.pow`; `sqrt` is constrained by `SqrtLaw` where a proof needs it, and `pow` only by `PowLaw` (non-negative base, non-negative result). The squares `pow(radius, 2)` and `pow(b, 2)` (Object.cpp:22, 24) and `powf(x, 2.0)` (RayTracer.cpp:158) are exact products (`Square`).
- `Vectors.Normalize`: glm divides the zero vector by zero; the model returns it unchanged. For a triangle with collinear vertices glm's normal is NaN, every comparison at Object.cpp:85 and 99 is false, and the C++ reports a hit with a NaN record; the model's zero normal gives `a == 0` and a miss.
- `RayTracer.GetRefraction`: the model requires `RefractionDefined`. When refraction is 0, the float ratio `-1/0` is minus infinity, and a ray is cast only if `(n . -d)^2 > 1`, with a direction built from infinities. That case is excluded. `UnitRaySceneRefractionDefined` shows it cannot happen for unit rays and unit plane normals.
- `RayTracer.CastRayStep`: models one level of `CastRay`. Nested calls are the `recurse` parameter, because the C++ recursion has no termination argument.
- `RayTracer.HasShadow`: the scratch record of the shadow loop starts uninitialised in C++. The model starts it at the hit record; it is only read after a hit overwrites it.
- `RayTracer.CheckIntersection`: the `LONG_MAX` start depth is taken for a 64-bit `long` (LP64), where the float value is 2^63. Where `long` has 32 bits (LLP64) it would be 2^31. No overflow of the float comparison is modelled.
- `Objects.Intersect`: the C++ divides by `a` before testing `a == 0`. The model tests first; the quotient is unused on that path either way.
- `IntersectInfo` and `Payload` are passed by reference in C++. Here they are values passed in and returned; no aliasing occurs in the source.
- `Ray.h` is not part of this model: a ray is assumed to store its direction as given and to evaluate `origin + t * direction` at parameter t.
- The default `Material` constructor leaves `refraction` and `refractiveIndex` uninitialised; `Objects.DefaultMaterial` takes them as parameters.
- `Object`'s placement matrix is only read by `Position`; no transformation of the geometry is modelled, as the source does none.
- `Render`, `main` and `cleanup` are left out: OpenGL output, camera matrices, the hard-coded scene and memory release.

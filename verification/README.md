# Pathways renderer, modelled in Dafny

Pathways is a small C# renderer. The CPU side keeps a scene: a camera, a list of
objects (spheres, rounded boxes and quads) and a list of lights. Each frame it
flattens them into plain "shader representation" records. A compute kernel then
runs once per pixel. It builds a camera ray, sphere-traces the signed distance
functions of the objects, shades the first surface it reaches and packs the
colour into one 32-bit integer. An older kernel, `RaymarchShader`, does the same
for `GameObject`s with flat colours and no lights.

This project models that core as pure Dafny functions over `real`:

- `numerics.dfy`: real stand-ins for `Vector3` and `Vector4`, `float.MaxValue`, and the
  `MathF` helpers. `MathF.Sqrt`, `Exp`, `Pow` and `Tan` are calls into the runtime,
  so they are fields of a `Libm` parameter. `Lawful` lists the few facts the proofs
  use about them.
- `shader_math.dfy` and `shader_rotation_methods.dfy`: quaternion rotation, with
  both the scalar route and the matrix route, plus normalise, length, clamp,
  smoothstep and the component-wise helpers. The second file is the older copy of
  the same code, proved equal to the first.
- `rotation.dfy` and `camera.dfy`: the `Rotation` wrapper with its axes and
  operators, and the camera with its constructor, setters and shader record.
- `colors.dfy`, `pathway_object.dfy`, `pathway_light.dfy`, `game_object.dfy`,
  `light_source.dfy`, `scene.dfy`: the entities, their defaults, their type codes
  and their conversion to shader records.
- `aa_bounding_box.dfy`: the slab test for an axis-aligned box.
- `bouncy_sphere.dfy`: the demo object that bounces between heights 1 and 4.
- `ray_march_sdf.dfy`, `ray_march_selection.dfy`, `ray_march_shading.dfy`,
  `ray_march_shader.dfy`: the current kernel.
  - The distance functions and their dispatch.
  - The inner selection loop and the 256-step march.
  - Shading, with point and directional lights, soft shadows and the tone map.
  - The pixel-to-ray mapping and the byte packing of the output.
- `raymarch_shader.dfy`: the old kernel. It is related to the current one where
  the two agree, and shown to differ where they do not.

## Model

| member | source | states |
|---|---|---|
| ShaderMath.TransformIdentity | Pathways/Shaders/ShaderMath.cs:9-29 | the identity quaternion leaves every vector unchanged |
| ShaderMath.TransformAdditive | Pathways/Shaders/ShaderMath.cs:9-29 | the quaternion rotation is additive in the vector |
| ShaderMath.TransformHomogeneous | Pathways/Shaders/ShaderMath.cs:9-29 | the quaternion rotation commutes with scaling |
| ShaderMath.TransformByColumns | Pathways/Shaders/ShaderMath.cs:9-29 | the rotation is the combination of the images of the three axes, weighted by the input |
| ShaderMath.ConjugateReadsColumns | Pathways/Shaders/ShaderMath.cs:9-29 | rotating by the conjugate takes the dot product of the vector with each rotated axis |
| ShaderMath.ColumnsOrthonormal | Pathways/Shaders/ShaderMath.cs:9-29 | for a unit quaternion the images of the three axes are orthonormal |
| ShaderMath.TransformThenConjugate | Pathways/Shaders/ShaderMath.cs:9-29 | for a unit quaternion, rotating by the conjugate undoes the rotation |
| ShaderMath.TransformPreservesLengthSquared | Pathways/Shaders/ShaderMath.cs:9-29 | a unit quaternion keeps the squared length of every vector |
| ShaderMath.MatrixRouteIsConjugate | Pathways/Shaders/ShaderMath.cs:32-62 | building the matrix row by row and reading it by columns rotates by the conjugate quaternion |
| ShaderMath.LengthFacts | Pathways/Shaders/ShaderMath.cs:72-75 | the length is non-negative, its square is the dot product with itself, and it is zero exactly for the zero vector |
| ShaderMath.LengthSign | Pathways/Shaders/ShaderMath.cs:72-75 | the length is non-negative and zero exactly for the zero vector |
| ShaderMath.NormalizeIsUnit | Pathways/Shaders/ShaderMath.cs:65-69 | a non-zero vector normalises to length one |
| ShaderMath.NormalizeScalesBack | Pathways/Shaders/ShaderMath.cs:65-75 | scaling the normalised vector by the original length gives the vector back |
| ShaderMath.Clamp | Pathways/Shaders/ShaderMath.cs:78-81 | with ordered bounds every component lands between them, and an input already inside is returned unchanged |
| ShaderMath.SmoothstepRange | Pathways/Shaders/ShaderMath.cs:84-88 | every component of smoothstep lies in [0,1] |
| ShaderMath.SmoothstepScalarBelow | Pathways/Shaders/ShaderMath.cs:84-88 | at or below the lower edge the component is 0 |
| ShaderMath.SmoothstepScalarAbove | Pathways/Shaders/ShaderMath.cs:84-88 | at or above the upper edge the component is 1 |
| ShaderMath.MulByScalarIsScale | Pathways/Shaders/ShaderMath.cs:91-94 | MulByScalar is the ordinary vector-times-scalar product |
| ShaderMath.Abs | Pathways/Shaders/ShaderMath.cs:97-100 | every component is non-negative and is the input component or its negation |
| ShaderMath.Min | Pathways/Shaders/ShaderMath.cs:103-106 | the result is below both inputs, component by component, and each component is one of the inputs' |
| ShaderMath.Max | Pathways/Shaders/ShaderMath.cs:109-112 | the result is above both inputs, component by component, and each component is one of the inputs' |
| ShaderRotationMethods.TransformAgrees | Pathways/Shaders/ShaderRotationMethods.cs:9-29 | the older copy rotates exactly as ShaderMath does |
| ShaderRotationMethods.MatrixAgrees | Pathways/Shaders/ShaderRotationMethods.cs:41-62 | the older copy builds the same matrix |
| ShaderRotationMethods.TransformByMatrixAgrees | Pathways/Shaders/ShaderRotationMethods.cs:32-38 | the older copy applies a matrix the same way |
| ShaderRotationMethods.NormalizeAgrees | Pathways/Shaders/ShaderRotationMethods.cs:65-69 | the older copy normalises the same way |
| ShaderRotationMethods.TransformIdentity | Pathways/Shaders/ShaderRotationMethods.cs:9-29 | the identity quaternion leaves every vector unchanged |
| ShaderRotationMethods.MatrixRouteIsConjugate | Pathways/Shaders/ShaderRotationMethods.cs:32-62 | the older copy's matrix route also rotates by the conjugate |
| ShaderRotationMethods.NormalizeIsUnit | Pathways/Shaders/ShaderRotationMethods.cs:65-69 | a non-zero vector normalises to length one |
| Rotations.FromQuaternion | Pathways/Rotation.cs:12-15 | the wrapper holds exactly the quaternion it is given |
| Rotations.Default | Pathways/Rotation.cs:23-26 | the default rotation is the identity quaternion |
| Rotations.DefaultAxes | Pathways/Rotation.cs:8-10 | the default rotation's Up, Right and Forward are +Y, +X and -Z |
| Rotations.ForwardIsNegatedColumn | Pathways/Rotation.cs:10 | Forward is the negated image of +Z |
| Rotations.AxesOrthonormal | Pathways/Rotation.cs:8-10 | for a unit quaternion, Up, Right and Forward are orthonormal |
| Rotations.RotateIdentity | Pathways/Rotation.cs:86-89 | rotating by the identity quaternion changes nothing |
| Rotations.RotateTwiceFromDefault | Pathways/Rotation.cs:86-89 | two rotations applied to the default compose as the Hamilton product, the later one on the left |
| Rotations.ComposeDefault | Pathways/Rotation.cs:28-31 | the default rotation is a two-sided unit of composition |
| Rotations.PlusMinus | Pathways/Rotation.cs:43-51 | subtracting what was added gives the rotation back |
| Rotations.ScalarSidesAgree | Pathways/Rotation.cs:33-41 | scaling by a float on the right or on the left gives the same rotation |
| Rotations.ToVector4Injective | Pathways/Rotation.cs:96-99 | two rotations with the same X, Y, Z, W vector are the same rotation |
| Cameras.New | Pathways/Camera.cs:49-60 | the camera keeps its position, rotation and field of view, with target and up taken from the rotation |
| Cameras.Default | Pathways/Camera.cs:62-71 | origin, target +Z, up +Y, field of view 90, identity rotation |
| Cameras.DefaultNotAligned | Pathways/Camera.cs:62-71 | the default target (+Z) is not the default rotation's Forward (-Z) |
| Cameras.SetRotation | Pathways/Camera.cs:32-41 | setting the rotation recomputes target and up from it, and keeps position and field of view |
| Cameras.SetPosition | Pathways/Camera.cs:20-24 | setting the position changes nothing else, target included |
| Cameras.SetPositionBreaksAlignment | Pathways/Camera.cs:20-41 | moving an aligned camera leaves the target behind, so it is no longer aligned |
| Cameras.SetRotationRebuilds | Pathways/Camera.cs:32-60 | moving and then rotating gives the camera the constructor would build |
| Cameras.AlignedViewFrame | Pathways/Camera.cs:32-60 | an aligned camera with a unit quaternion looks along a unit vector at right angles to its unit up vector |
| Cameras.GetShaderRepresentation | Pathways/Camera.cs:85-101 | the record copies position, target, up and field of view, and the rotation as X, Y, Z, W |
| Colors.Channel | Pathways/PathwayObject.cs:67-80 | a byte divided by 255 lies in [0,1] and times 255 gives the byte back |
| Colors.ToUnitRgb | Pathways/PathwayObject.cs:67-80 | the colour lands in the unit cube and scales back to the red, green and blue bytes |
| Colors.ToUnitRgbInjective | Pathways/PathwayObject.cs:67-80 | two colours give the same vector exactly when their red, green and blue bytes agree |
| PathwayObjects.TypeCode | Pathways/PathwayObject.cs:21-26 | the object type codes are 0, 1 and 2 |
| PathwayObjects.TypeOfCode | Pathways/PathwayObject.cs:21-26 | a code names a type exactly when it is 0, 1 or 2 |
| PathwayObjects.TypeCodeRoundTrip | Pathways/PathwayObject.cs:21-26 | type to code and back is the identity, both ways |
| PathwayObjects.New | Pathways/PathwayObject.cs:35-44 | the constructor keeps its arguments, with smoothness 0.5 |
| PathwayObjects.Default | Pathways/PathwayObject.cs:46-53 | a white unit sphere at the origin, identity rotation, smoothness 0.5 |
| PathwayObjects.GetShaderRepresentation | Pathways/PathwayObject.cs:67-80 | the record keeps position, scale and smoothness, flattens the rotation, encodes the type and maps the colour into the unit cube |
| PathwayObjects.RecordLosesOnlyAlpha | Pathways/PathwayObject.cs:67-80 | two objects give the same record exactly when they differ at most in colour alpha |
| PathwayObjects.DefaultRecord | Pathways/PathwayObject.cs:46-80 | the default object's record, value by value |
| PathwayLights.TypeCode | Pathways/PathwayLight.cs:18-22 | the light type codes are 0 and 1 |
| PathwayLights.TypeOfCode | Pathways/PathwayLight.cs:18-22 | a code names a type exactly when it is 0 or 1 |
| PathwayLights.TypeCodeRoundTrip | Pathways/PathwayLight.cs:18-22 | type to code and back is the identity, both ways |
| PathwayLights.New | Pathways/PathwayLight.cs:28-39 | the constructor keeps its arguments, with shadow sharpness 32 |
| PathwayLights.Default | Pathways/PathwayLight.cs:41-48 | a white point light of intensity 1 at the origin, identity rotation |
| PathwayLights.GetShaderRepresentation | Pathways/PathwayLight.cs:50-72 | the record keeps position, intensity and sharpness, flattens the rotation, encodes the type and maps the colour into the unit cube |
| PathwayLights.RecordLosesOnlyAlpha | Pathways/PathwayLight.cs:50-72 | two lights give the same record exactly when they differ at most in colour alpha |
| PathwayLights.DefaultRecord | Pathways/PathwayLight.cs:41-72 | the default light's record, value by value |
| GameObjects.TypeCode | Pathways/GameObject.cs:19-24 | the distance-function type codes are 0, 1 and 2 |
| GameObjects.TypeOfCode | Pathways/GameObject.cs:19-24 | a code names a type exactly when it is 0, 1 or 2 |
| GameObjects.TypeCodeRoundTrip | Pathways/GameObject.cs:19-24 | type to code and back is the identity, both ways |
| GameObjects.New | Pathways/GameObject.cs:34-41 | the constructor keeps its arguments |
| GameObjects.Default | Pathways/GameObject.cs:43-50 | a red unit sphere at the origin with the identity rotation |
| GameObjects.GetShaderRepresentation | Pathways/GameObject.cs:62-83 | the record keeps position and scale, flattens the rotation, encodes the type and maps the colour into the unit cube |
| GameObjects.RecordLosesOnlyAlpha | Pathways/GameObject.cs:62-83 | two objects give the same record exactly when they differ at most in colour alpha |
| GameObjects.DefaultRecord | Pathways/GameObject.cs:43-83 | the default object's record, value by value |
| LightSources.TypeCode | Pathways/LightSource.cs:17-21 | the light type codes are 0 and 1 |
| LightSources.TypeOfCode | Pathways/LightSource.cs:17-21 | a code names a type exactly when it is 0 or 1 |
| LightSources.TypeCodeRoundTrip | Pathways/LightSource.cs:17-21 | type to code and back is the identity, both ways |
| LightSources.New | Pathways/LightSource.cs:30-37 | the constructor keeps its arguments |
| LightSources.Default | Pathways/LightSource.cs:39-46 | a white point light of intensity 1 at the origin, identity rotation |
| LightSources.GetShaderRepresentation | Pathways/LightSource.cs:48-69 | the record keeps position and intensity, flattens the rotation, encodes the type and maps the colour into the unit cube |
| LightSources.RecordLosesOnlyAlpha | Pathways/LightSource.cs:48-69 | two lights give the same record exactly when they differ at most in colour alpha |
| LightSources.DefaultRecord | Pathways/LightSource.cs:39-69 | the default light's record, value by value |
| Scenes.IndexOf | Pathways/Scene.cs:52-55 | the first position holding the reference, or -1 exactly when it is absent |
| Scenes.GetObjectsShaderRepresentation | Pathways/Scene.cs:48-58 | one record per list entry, written at the first occurrence of each reference; later duplicates keep the all-zero record; a list without duplicates maps entry by entry |
| AaBoundingBoxes.RayIntersects | Pathways/AaBoundingBox.cs:16-25 | the slab test answers true exactly when some point origin + t * dir of the line lies strictly inside the box on all three axes |
| AaBoundingBoxes.InsideAtIff | Pathways/AaBoundingBox.cs:16-25 | the line's point at t is strictly inside the box exactly when t lies between the latest slab entry and the earliest slab exit |
| AaBoundingBoxes.SlabTest | Pathways/AaBoundingBox.cs:16-25 | the latest slab entry comes before the earliest slab exit exactly when the line passes through the box's interior |
| AaBoundingBoxes.SwapBoundsInvariant | Pathways/AaBoundingBox.cs:16-25 | swapping the lower and upper bounds does not change the answer |
| AaBoundingBoxes.NegatedDirectionInvariant | Pathways/AaBoundingBox.cs:16-25 | reversing the direction swaps and negates entry and exit, so a box behind the origin is reported too |
| AaBoundingBoxes.InsideOriginHits | Pathways/AaBoundingBox.cs:16-25 | a line starting strictly inside the box meets it |
| AaBoundingBoxes.DegenerateBoxMisses | Pathways/AaBoundingBox.cs:16-25 | a box whose bounds coincide is never met |
| BouncySpheres.NewSphere | PathwaysDemo/BouncySphere.cs:9-15 | a red sphere at the origin with unit scale, moving up at 4 units per second, with the identity rotation the base constructor sets |
| BouncySpheres.NewCube | PathwaysDemo/BouncySphere.cs:35-43 | a blue box moving up at 2 units per second, rotated by the given yaw |
| BouncySpheres.Update | PathwaysDemo/BouncySphere.cs:17-33 | the height after a step is in [1,4]: the stepped position clamped vertically, with the vertical velocity reversed exactly when it left the range, and nothing else changed |
| BouncySpheres.RunKeepsSpeed | PathwaysDemo/BouncySphere.cs:17-33 | over any run of frames the horizontal velocity and the vertical speed are kept, and after one frame the height is in [1,4] |
| RayMarchSdf.SceneSdf | Pathways/Shaders/RayMarchShader.cs:113-124 | the scene distance is at most float.MaxValue and every object's distance, and is float.MaxValue or one object's distance |
| RayMarchSdf.SphereFacts | Pathways/Shaders/RayMarchShader.cs:150-153 | a sphere's distance is at least minus its radius, and equal to it exactly at the centre |
| RayMarchSdf.BoxDistanceSign | Pathways/Shaders/RayMarchShader.cs:155-173 | the unrounded box distance is negative exactly when the point is inside in every axis, where it is the largest component |
| RayMarchSdf.BoxInteriorIff | Pathways/Shaders/RayMarchShader.cs:155-173 | the rounded box is below -0.1 exactly strictly inside the unrounded box |
| RayMarchSdf.BoxDistanceBelowBig | Pathways/Shaders/RayMarchShader.cs:155-173 | for offsets below 2^64 the box distance stays below float.MaxValue |
| RayMarchSdf.PlaneEarlyExit | Pathways/Shaders/RayMarchShader.cs:175-196 | on the quad's closed rectangle at local height 0 the quad reports float.MaxValue, elsewhere the box distance from the offset |
| RayMarchSdf.PlaneNonNegative | Pathways/Shaders/RayMarchShader.cs:175-196 | the quad's distance is never negative |
| RayMarchSdf.PlaneBigIffOnQuad | Pathways/Shaders/RayMarchShader.cs:175-196 | the quad reports float.MaxValue exactly on its rectangle, for offsets below 2^64 |
| RayMarchSdf.PlaneCentreSubtractedTwice | Pathways/Shaders/RayMarchShader.cs:175-196 | off the rectangle, the quad measures from the local point minus the rotated centre, a second subtraction of the centre |
| RayMarchSdf.PlaneZeroOnShiftedQuad | Pathways/Shaders/RayMarchShader.cs:175-196 | because of that second subtraction the quad reports distance 0 on a copy of the rectangle shifted by the rotated centre |
| RayMarchSdf.GetNormalIsUnit | Pathways/Shaders/RayMarchShader.cs:198-216 | the normal is a unit vector wherever the sampled gradient is not zero |
| RayMarchSdf.DispatchFollowsObjectType | Pathways/Shaders/RayMarchShader.cs:126-149 | the dispatch picks the distance function of the type the record was made from |
| RayMarchSdf.UnknownCodeIsZero | Pathways/Shaders/RayMarchShader.cs:133-149 | a type code outside 0..2 has distance 0 everywhere |
| RayMarchSdf.ZeroRecordIsOriginPoint | Pathways/Shaders/RayMarchShader.cs:126-153 | the all-zero record is a sphere of radius 0 at the origin: its distance is the point's length, zero only at the origin |
| RayMarchSelection.ScanFrom | Pathways/Shaders/RayMarchShader.cs:76-101 | the inner loop stops at the first object in the hit band [0, 0.001), and otherwise returns a step no larger than every later distance that no negative one follows, which is the running minimum, float.MaxValue or one of those distances |
| RayMarchSelection.Scan | Pathways/Shaders/RayMarchShader.cs:76-101 | a pass hits exactly when some distance is in the hit band, at the first such object; a miss steps by the least distance that no negative one follows, or by float.MaxValue, and always by at least 0.001 |
| RayMarchSelection.NegativeForgetsPrefix | Pathways/Shaders/RayMarchShader.cs:82-88 | a negative distance resets the running minimum, so the pass restarts after it |
| RayMarchSelection.NegativeDiscardsSmaller | Pathways/Shaders/RayMarchShader.cs:82-88 | after distances 0.5 and -1 the pass steps by float.MaxValue, not 0.5 |
| RayMarchSelection.MarchFrom | Pathways/Shaders/RayMarchShader.cs:67-107 | the outer loop stops at a pass that hits, within the step budget, and t grows by at least 0.001 per step |
| RayMarchSelection.TrajectoryAfterMiss | Pathways/Shaders/RayMarchShader.cs:70-103 | after a missed pass, the ray's path continues from t plus the step, and its earlier passes all missed exactly when the shifted path's did |
| RayMarchSelection.MarchAfterMiss | Pathways/Shaders/RayMarchShader.cs:70-103 | a missed pass extends what the rest of the march says about its path to the path from t, one pass longer |
| RayMarchSelection.WalkFollowsPath | Pathways/Shaders/RayMarchShader.cs:70-103 | the outer loop stops, on the ray's path, at the first pass that hits, every earlier pass having missed; running out means every pass on the path missed |
| RayMarchSelection.MarchFromIsWalk | Pathways/Shaders/RayMarchShader.cs:70-103 | the new kernel's outer loop is the generic loop with its own pass and 256 steps |
| RayMarchSelection.MarchFromFollowsPath | Pathways/Shaders/RayMarchShader.cs:70-103 | the new kernel's outer loop stops at the first pass on the ray's path that hits, and is exhausted only when all remaining passes miss |
| RayMarchSelection.March | Pathways/Shaders/RayMarchShader.cs:67-107 | from t = 0, a hit comes within 256 passes at a non-negative t, at the first pass on the ray's path that hits; running out means all 256 passes missed, and leaves t at least 256 * 0.001 at the path's end |
| RayMarchSelection.NoBandNoHit | Pathways/Shaders/RayMarchShader.cs:67-107 | a ray whose passes never see a distance in the hit band runs out of steps |
| RayMarchSelection.ExhaustedIffNoBand | Pathways/Shaders/RayMarchShader.cs:67-107 | the march runs out of steps exactly when none of the 256 passes along the ray's path sees a distance in the hit band |
| RayMarchShading.ShadowFrom | Pathways/Shaders/RayMarchShader.cs:314-330 | the soft-shadow factor stays in [0,1] |
| RayMarchShading.ShadowZeroIff | Pathways/Shaders/RayMarchShader.cs:314-330 | the shadow factor is 0 exactly when some sample along the shadow ray lies closer than 0.001 |
| RayMarchShading.Shadow | Pathways/Shaders/RayMarchShader.cs:314-330 | the shadow factor of a light is in [0,1] |
| RayMarchShading.ShadeNoLights | Pathways/Shaders/RayMarchShader.cs:221-266 | with no lights the shade is the ambient tenth of the object's colour |
| RayMarchShading.KnownLights | Pathways/Shaders/RayMarchShader.cs:233-260 | the lights the shading switch handles are exactly the lights with type code 0 or 1: each is one, every such light is kept as often as it occurs in the buffer, nothing else is added |
| RayMarchShading.UnknownLightsIgnored | Pathways/Shaders/RayMarchShader.cs:233-260 | lights of any other type code add nothing |
| RayMarchShading.SharpnessIgnored | Pathways/Shaders/RayMarchShader.cs:221-266 | the shading never reads a light's ShadowSharpness: the kernel passes constants |
| RayMarchShading.SharpnessIgnoredSum | Pathways/Shaders/RayMarchShader.cs:221-266 | the light sum never reads a light's ShadowSharpness |
| RayMarchShading.LitNonNegative | Pathways/Shaders/RayMarchShader.cs:268-312 | a light with non-negative colour and intensity adds a non-negative colour |
| RayMarchShading.SpecularNonNegative | Pathways/Shaders/RayMarchShader.cs:268-312 | the specular factor is never negative |
| RayMarchShading.LightSumNonNegative | Pathways/Shaders/RayMarchShader.cs:221-266 | the sum over non-negative lights is non-negative |
| RayMarchShading.ShadeAtLeastAmbient | Pathways/Shaders/RayMarchShader.cs:221-266 | lights only ever add to the ambient term |
| RayMarchShading.SmoothClampRange | Pathways/Shaders/RayMarchShader.cs:332-344 | the tone map sends every channel into (-1, 1) and 0 to 0 |
| RayMarchShader.PixelCoords | Pathways/Shaders/RayMarchShader.cs:25-26 | each thread id in the image gives an in-range pixel, and the pixel gives the id back |
| RayMarchShader.PixelIdRoundTrip | Pathways/Shaders/RayMarchShader.cs:25-26 | each pixel's id is in range and gives the pixel back |
| RayMarchShader.ScreenCoord | Pathways/Shaders/RayMarchShader.cs:28-31 | a pixel index maps into [-1, 1) |
| RayMarchShader.CameraSpaceVector | Pathways/Shaders/RayMarchShader.cs:28-41 | the unrotated ray has depth -1 |
| RayMarchShader.RayDirectionUnit | Pathways/Shaders/RayMarchShader.cs:28-43 | with a unit camera quaternion the ray direction is a unit vector |
| RayMarchShader.Distances | Pathways/Shaders/RayMarchShader.cs:113-124 | the march samples one distance per object, and the scene distance the shadow rays use is at most each of them and equals one of them unless it is float.MaxValue |
| RayMarchShader.Quantize | Pathways/Shaders/RayMarchShader.cs:50-52 | a channel becomes an integer in [0,255]: 0 at or below 0, 255 at or above 1, the floor of c * 255 between |
| RayMarchShader.PackRoundTrip | Pathways/Shaders/RayMarchShader.cs:53-54 | each of the four bytes packed into the word reads back from its own position |
| RayMarchShader.OpaqueIsNegative | Pathways/Shaders/RayMarchShader.cs:53-54 | a word with alpha 255 is a negative int |
| RayMarchShader.PackColorChannels | Pathways/Shaders/RayMarchShader.cs:50-54 | the packed colour holds the red, green and blue bytes in bytes 0 to 2 and 255 in byte 3 |
| RayMarchShader.ExecuteChannels | Pathways/Shaders/RayMarchShader.cs:23-57 | every pixel's output holds its tone-mapped colour's bytes and an opaque alpha, so it is negative |
| RayMarchShader.MissIsBlack | Pathways/Shaders/RayMarchShader.cs:63-107 | a ray that runs out of steps is black |
| RayMarchShader.BlackIffMiss | Pathways/Shaders/RayMarchShader.cs:63-107 | for visible objects and non-negative lights, a ray is black exactly when it runs out of steps |
| RayMarchShader.EmptySceneBlack | Pathways/Shaders/RayMarchShader.cs:23-107 | with no objects every pixel is opaque black, the int -16777216 |
| RayMarchShader.UnknownTypeStopsRay | Pathways/Shaders/RayMarchShader.cs:133-149 | an object of unknown type is at distance 0 everywhere, so every ray stops at its origin |
| RaymarchShader.Sanitize | Pathways/Shaders/RaymarchShader.cs:77-81 | a negative distance is replaced by float.MaxValue; the result is never negative |
| RaymarchShader.ScanFrom | Pathways/Shaders/RaymarchShader.cs:57-99 | the old inner loop stops at the first object in the hit band; otherwise it returns a step no larger than every non-negative distance |
| RaymarchShader.Scan | Pathways/Shaders/RaymarchShader.cs:55-99 | a pass hits exactly when some distance is in the hit band, at the first such object; a miss steps by the least non-negative distance, or float.MaxValue |
| RaymarchShader.HitsAgree | Pathways/Shaders/RaymarchShader.cs:55-99 | the old and the new pass hit on the same distances and pick the same object |
| RaymarchShader.KernelsDiffer | Pathways/Shaders/RaymarchShader.cs:77-99 | on the distances 0.5 and -1 the old pass steps by 0.5 and the new one by float.MaxValue |
| RaymarchShader.MarchFrom | Pathways/Shaders/RaymarchShader.cs:51-102 | the old outer loop stops at the first pass on the ray's path that hits, within its 128 steps, every earlier pass having missed; t grows by at least 0.001 per step; running out means every remaining pass missed |
| RaymarchShader.March | Pathways/Shaders/RaymarchShader.cs:47-102 | from t = 0, a hit comes within 128 passes, at the first pass on the ray's path that hits; running out means all 128 passes missed, and leaves t at least 128 * 0.001 at the path's end |
| RaymarchShader.ObjectDistance | Pathways/Shaders/RaymarchShader.cs:64-75 | for spheres, planes and unknown codes the old switch gives what the new kernel's Sdf dispatch gives; only the box differs |
| RaymarchShader.Distances | Pathways/Shaders/RaymarchShader.cs:57-75 | one distance per object, each agreeing with the new kernel's Sdf dispatch except for boxes |
| RaymarchShader.Raymarch | Pathways/Shaders/RaymarchShader.cs:43-105 | the colour is always opaque |
| RaymarchShader.RaymarchResult | Pathways/Shaders/RaymarchShader.cs:43-105 | a hit stops at an object whose distance at the hit point is in the hit band and returns that object's flat colour; a miss returns grey (t, t, t) with t at least 0.128 |
| RaymarchShader.BoxSdfSign | Pathways/Shaders/RaymarchShader.cs:114-132 | the old box is float.MaxValue inside the closed box and strictly positive outside |
| RaymarchShader.OutsidePositive | Pathways/Shaders/RaymarchShader.cs:114-132 | the unrounded box distance is positive once any component is outside |
| RaymarchShader.BoxDistanceAgrees | Pathways/Shaders/RaymarchShader.cs:158-179 | the old kernel's private box distance equals the new kernel's |
| RaymarchShader.PlaneAgrees | Pathways/Shaders/RaymarchShader.cs:134-153 | the old quad is the same function as the new one |
| RaymarchShader.UnknownTypeStopsRay | Pathways/Shaders/RaymarchShader.cs:62-75 | an object of unknown type keeps distance 0, so every ray stops at its origin |
| RaymarchShader.RayDirectionAgrees | Pathways/Shaders/RaymarchShader.cs:20-38 | the old kernel builds the same ray as the new one |

## Left out

- Drawing, windows and input: Raylib calls, `Window`, `Pathway`, `PathwayShaderManager`, `Camera.StartDraw`/`EndDraw`/`FlyControlls`, and the empty `Init`/`Update`/`Draw` hooks of `GameObject`, `PathwayObject` and `Scene`. They are I/O.
- GPU dispatch: the kernels run one thread per pixel in parallel. The model is the function one thread computes, given its thread id.
- Floating point: `float` is `real`, so rounding, NaN and infinities are not modelled. `float.MaxValue` is the exact constant, and in the model adding it to `t` never overflows. In single precision a second float.MaxValue step (Pathways/Shaders/RayMarchShader.cs:103, Pathways/Shaders/RaymarchShader.cs:101) makes `t` +Infinity. An empty scene does this at its second pass, after which the old kernel returns (inf, inf, inf, 1) where the model returns a finite (t, t, t, 1).
- `MathF.Sqrt`, `Exp`, `Pow` and `Tan` are a parameter. The proofs use only the facts `Lawful` lists. `Exp` is positive, but its monotonicity is not assumed, so the tone map is shown to stay in (-1, 1) and not to keep signs.
- Normalising the zero vector gives NaN in the source. The model returns the vector unchanged, and every lemma about Normalize requires a non-zero input.
- `Rotation(Vector3 euler)`, `Rotate(Vector3)` and `YawPitchRoll`: Euler-angle conversions through `Quaternion.CreateFromYawPitchRoll` are not modelled. The camera's default rotation from zero angles is the identity quaternion. The 45-degree yaw of the bouncing cube is a parameter.
- `ToString` of `Rotation` is text formatting.
- `Rotation` is a mutable class (Pathways/Rotation.cs:5), and `Rotate` changes it in place (Pathways/Rotation.cs:86-89). A camera whose rotation is rotated through the getter keeps a stale Raylib target and up vector until `StartDraw` copies them again. The model treats a rotation as a value, and the camera's setter is the only way to change it.
- ShaderMath.Smoothstep: equal edges divide by zero in the source; the model requires distinct edges.
- AaBoundingBoxes.RayIntersects: a zero direction component divides by zero in the source, giving infinities or NaN; the model requires a non-zero direction in every axis.
- RayMarchSdf.PlaneBigIffOnQuad: stated only for offsets whose components are below 2^64, where the real-valued length is below float.MaxValue; in single precision a far enough point also reaches float.MaxValue.
- RayMarchSdf.GetNormalIsUnit: states only that the normal is a unit vector, not the exact gradient values.
- Rotations.RotateTwiceFromDefault: states composition only starting from the default rotation; associativity of the Hamilton product in general is not proved.
- RayMarchShader.PackRoundTrip: shows that each byte reads back, but not the converse, that unpacking a word and packing it again gives it back.
- RayMarchShader.BlackIffMiss: requires every object to have a non-negative colour with one positive channel and non-negative smoothness, and every light a non-negative colour and intensity; other inputs can shade to black.
- `tMax` (1000 in the new kernel, 100 in the old) is declared in both march loops and never read. The model has no such bound, and neither does the source.
- The kernels' width and height must be positive: the source divides by them.

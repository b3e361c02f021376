/** Camera, mesh and base coordinates of scripts/blow_from_mesh.py over the reals:
    unprojection, depth by ray casting, and the reachability test (lines 83-104, 257-356, 409-416, 524-537). */
module MeshGeometry {
  import opened Wrappers

  datatype Vec3 = Vec3(x: real, y: real, z: real)

  /** A 3x3 matrix by columns. */
  datatype Mat3 = Mat3(c0: Vec3, c1: Vec3, c2: Vec3)

  /** A 4x4 SE(3) matrix [R t; 0 1]. */
  datatype Pose = Pose(rot: Mat3, trans: Vec3)

  /** Pinhole intrinsics (lines 85-89). */
  datatype Camera = Camera(fx: real, fy: real, cx: real, cy: real)

  const MESH_DIMENSION := 1000.0

  function Add(a: Vec3, b: Vec3): Vec3 {
    Vec3(a.x + b.x, a.y + b.y, a.z + b.z)
  }

  function Sub(a: Vec3, b: Vec3): Vec3 {
    Vec3(a.x - b.x, a.y - b.y, a.z - b.z)
  }

  function Scale(k: real, a: Vec3): Vec3 {
    Vec3(k * a.x, k * a.y, k * a.z)
  }

  function Dot(a: Vec3, b: Vec3): real {
    a.x * b.x + a.y * b.y + a.z * b.z
  }

  function MulVec(m: Mat3, v: Vec3): Vec3 {
    Add(Add(Scale(v.x, m.c0), Scale(v.y, m.c1)), Scale(v.z, m.c2))
  }

  function Transpose(m: Mat3): Mat3 {
    Mat3(Vec3(m.c0.x, m.c1.x, m.c2.x), Vec3(m.c0.y, m.c1.y, m.c2.y), Vec3(m.c0.z, m.c1.z, m.c2.z))
  }

  predicate OrthonormalColumns(m: Mat3) {
    && Dot(m.c0, m.c0) == 1.0 && Dot(m.c1, m.c1) == 1.0 && Dot(m.c2, m.c2) == 1.0
    && Dot(m.c0, m.c1) == 0.0 && Dot(m.c0, m.c2) == 0.0 && Dot(m.c1, m.c2) == 0.0
  }

  /** A rigid pose: the rotation part is orthogonal. */
  predicate Rigid(t: Pose) {
    OrthonormalColumns(t.rot) && OrthonormalColumns(Transpose(t.rot))
  }

  /** T @ [p, 1] */
  function Apply(t: Pose, p: Vec3): Vec3 {
    Add(MulVec(t.rot, p), t.trans)
  }

  function MulMat(a: Mat3, b: Mat3): Mat3 {
    Mat3(MulVec(a, b.c0), MulVec(a, b.c1), MulVec(a, b.c2))
  }

  function Compose(a: Pose, b: Pose): Pose {
    Pose(MulMat(a.rot, b.rot), Apply(a, b.trans))
  }

  /** np.linalg.inv of a rigid pose. */
  function Inverse(t: Pose): Pose {
    Pose(Transpose(t.rot), Scale(-1.0, MulVec(Transpose(t.rot), t.trans)))
  }

  /* ---- Linear algebra ---- */

  lemma DotLinear(a: Vec3, k: real, b: Vec3, c: Vec3)
    ensures Dot(a, Add(b, c)) == Dot(a, b) + Dot(a, c)
    ensures Dot(a, Scale(k, b)) == k * Dot(a, b)
    ensures Dot(a, b) == Dot(b, a)
  {
    assert a.x * (b.x + c.x) == a.x * b.x + a.x * c.x;
    assert a.y * (b.y + c.y) == a.y * b.y + a.y * c.y;
    assert a.z * (b.z + c.z) == a.z * b.z + a.z * c.z;
  }

  /** c . (M v) is the combination of the columns' products with c. */
  lemma DotMulVec(c: Vec3, m: Mat3, v: Vec3)
    ensures Dot(c, MulVec(m, v)) == v.x * Dot(c, m.c0) + v.y * Dot(c, m.c1) + v.z * Dot(c, m.c2)
  {
    var a, b, d := Scale(v.x, m.c0), Scale(v.y, m.c1), Scale(v.z, m.c2);
    DotLinear(c, 1.0, Add(a, b), d);
    DotLinear(c, 1.0, a, b);
    DotLinear(c, v.x, m.c0, b);
    DotLinear(c, v.y, m.c1, b);
    DotLinear(c, v.z, m.c2, b);
  }

  lemma TransposeRows(m: Mat3, w: Vec3)
    ensures MulVec(Transpose(m), w) == Vec3(Dot(m.c0, w), Dot(m.c1, w), Dot(m.c2, w))
  {
  }

  lemma MulVecLinear(m: Mat3, a: Vec3, b: Vec3, k: real)
    ensures MulVec(m, Add(a, b)) == Add(MulVec(m, a), MulVec(m, b))
    ensures MulVec(m, Scale(k, a)) == Scale(k, MulVec(m, a))
  {
    MulVecAdds(m, a, b);
    MulVecScales(m, k, a);
  }

  lemma ScaleSum(a: real, b: real, v: Vec3)
    ensures Scale(a + b, v) == Add(Scale(a, v), Scale(b, v))
  {
    assert (a + b) * v.x == a * v.x + b * v.x;
    assert (a + b) * v.y == a * v.y + b * v.y;
    assert (a + b) * v.z == a * v.z + b * v.z;
  }

  lemma ScaleAdd(k: real, u: Vec3, v: Vec3)
    ensures Scale(k, Add(u, v)) == Add(Scale(k, u), Scale(k, v))
  {
    assert k * (u.x + v.x) == k * u.x + k * v.x;
    assert k * (u.y + v.y) == k * u.y + k * v.y;
    assert k * (u.z + v.z) == k * u.z + k * v.z;
  }

  lemma ScaleSums(k: real, u: Vec3, v: Vec3, w: Vec3)
    ensures Scale(k, Add(Add(u, v), w)) == Add(Add(Scale(k, u), Scale(k, v)), Scale(k, w))
  {
    ScaleAdd(k, Add(u, v), w);
    ScaleAdd(k, u, v);
  }

  lemma ScaleTwiceAs(a: real, b: real, ab: real, v: Vec3)
    requires ab == a * b
    ensures Scale(a, Scale(b, v)) == Scale(ab, v)
  {
    assert a * (b * v.x) == ab * v.x && a * (b * v.y) == ab * v.y && a * (b * v.z) == ab * v.z;
  }

  lemma AddSwaps(u: Vec3, v: Vec3, w: Vec3, u': Vec3, v': Vec3, w': Vec3)
    ensures Add(Add(Add(u, u'), Add(v, v')), Add(w, w')) == Add(Add(Add(u, v), w), Add(Add(u', v'), w'))
  {
  }

  lemma MulVecAdds(m: Mat3, a: Vec3, b: Vec3)
    ensures MulVec(m, Add(a, b)) == Add(MulVec(m, a), MulVec(m, b))
  {
    ScaleSum(a.x, b.x, m.c0);
    ScaleSum(a.y, b.y, m.c1);
    ScaleSum(a.z, b.z, m.c2);
    AddSwaps(Scale(a.x, m.c0), Scale(a.y, m.c1), Scale(a.z, m.c2),
             Scale(b.x, m.c0), Scale(b.y, m.c1), Scale(b.z, m.c2));
  }

  lemma MulVecScales(m: Mat3, k: real, a: Vec3)
    ensures MulVec(m, Scale(k, a)) == Scale(k, MulVec(m, a))
  {
    var u, v, w := Scale(a.x, m.c0), Scale(a.y, m.c1), Scale(a.z, m.c2);
    var ka := Scale(k, a);
    ScaleTwiceAs(k, a.x, ka.x, m.c0);
    ScaleTwiceAs(k, a.y, ka.y, m.c1);
    ScaleTwiceAs(k, a.z, ka.z, m.c2);
    assert MulVec(m, ka) == Add(Add(Scale(k, u), Scale(k, v)), Scale(k, w));
    ScaleSums(k, u, v, w);
  }

  /** R^T (R v) == v */
  lemma RotateBack(m: Mat3, v: Vec3)
    requires OrthonormalColumns(m)
    ensures MulVec(Transpose(m), MulVec(m, v)) == v
  {
    TransposeRows(m, MulVec(m, v));
    DotMulVec(m.c0, m, v);
    DotMulVec(m.c1, m, v);
    DotMulVec(m.c2, m, v);
    DotLinear(m.c0, 1.0, m.c1, m.c2);
    DotLinear(m.c0, 1.0, m.c2, m.c2);
    DotLinear(m.c1, 1.0, m.c2, m.c2);
  }

  /** A rotation keeps lengths and angles. */
  lemma RotationKeepsDot(m: Mat3, v: Vec3, w: Vec3)
    requires OrthonormalColumns(m)
    ensures Dot(MulVec(m, v), MulVec(m, w)) == Dot(v, w)
  {
    var r := MulVec(m, v);
    RotateBack(m, v);
    Adjoint(m, r, w);
  }

  /** c . (M w) == (M^T c) . w */
  lemma Adjoint(m: Mat3, c: Vec3, w: Vec3)
    ensures Dot(c, MulVec(m, w)) == Dot(MulVec(Transpose(m), c), w)
  {
    TransposeRows(m, c);
  }

  /** The inverse undoes a rigid pose, from both sides. */
  lemma InverseUndoes(t: Pose, p: Vec3)
    requires Rigid(t)
    ensures Apply(Inverse(t), Apply(t, p)) == p
    ensures Apply(t, Apply(Inverse(t), p)) == p
  {
    var rt := Transpose(t.rot);
    MulVecLinear(rt, MulVec(t.rot, p), t.trans, 1.0);
    RotateBack(t.rot, p);
    RotateBack(rt, p);
    RotateBack(rt, t.trans);
    assert Transpose(rt) == t.rot;
    MulVecLinear(t.rot, MulVec(rt, p), Scale(-1.0, MulVec(rt, t.trans)), 1.0);
    MulVecLinear(t.rot, MulVec(rt, t.trans), p, -1.0);
  }

  lemma ComposeApplies(a: Pose, b: Pose, p: Vec3)
    ensures Apply(Compose(a, b), p) == Apply(a, Apply(b, p))
  {
    MulVecLinear(a.rot, MulVec(b.rot, p), b.trans, 1.0);
    MulVecLinear(a.rot, Add(Scale(p.x, b.rot.c0), Scale(p.y, b.rot.c1)), Scale(p.z, b.rot.c2), 1.0);
    MulVecLinear(a.rot, Scale(p.x, b.rot.c0), Scale(p.y, b.rot.c1), 1.0);
    MulVecLinear(a.rot, b.rot.c0, p, p.x);
    MulVecLinear(a.rot, b.rot.c1, p, p.y);
    MulVecLinear(a.rot, b.rot.c2, p, p.z);
  }

  lemma TransposeMul(a: Mat3, b: Mat3)
    ensures Transpose(MulMat(a, b)) == MulMat(Transpose(b), Transpose(a))
  {
    var at := Transpose(a);
    TransposeRows(at, b.c0);
    TransposeRows(at, b.c1);
    TransposeRows(at, b.c2);
    assert Transpose(at) == a;
    TransposedColumn(at.c0, b);
    TransposedColumn(at.c1, b);
    TransposedColumn(at.c2, b);
  }

  lemma TransposedColumn(r: Vec3, b: Mat3)
    ensures MulVec(Transpose(b), r) == Vec3(Dot(r, b.c0), Dot(r, b.c1), Dot(r, b.c2))
  {
    TransposeRows(b, r);
    DotLinear(r, 1.0, b.c0, r);
    DotLinear(r, 1.0, b.c1, r);
    DotLinear(r, 1.0, b.c2, r);
  }

  /** The transform chain world - base - link 6 - camera stays rigid. */
  lemma ComposeRigid(a: Pose, b: Pose)
    requires Rigid(a) && Rigid(b)
    ensures Rigid(Compose(a, b))
  {
    OrthonormalProduct(a.rot, b.rot);
    TransposeMul(a.rot, b.rot);
    OrthonormalProduct(Transpose(b.rot), Transpose(a.rot));
  }

  /** The camera pose of line 618, from the poses of the base in the world, of link 6 in the base and of the
      camera in link 6: it is rigid, takes camera points to the world one link at a time, and its inverse
      takes them back one link at a time. */
  lemma CameraChain(worldBase: Pose, baseLink6: Pose, link6Camera: Pose, p: Vec3)
    requires Rigid(worldBase) && Rigid(baseLink6) && Rigid(link6Camera)
    ensures var chain := Compose(Compose(worldBase, baseLink6), link6Camera);
            && Rigid(chain)
            && Apply(chain, p) == Apply(worldBase, Apply(baseLink6, Apply(link6Camera, p)))
            && Apply(Inverse(chain), p)
               == Apply(Inverse(link6Camera), Apply(Inverse(baseLink6), Apply(Inverse(worldBase), p)))
  {
    var arm := Compose(worldBase, baseLink6);
    var chain := Compose(arm, link6Camera);
    ComposeRigid(worldBase, baseLink6);
    ComposeRigid(arm, link6Camera);
    ComposeApplies(arm, link6Camera, p);
    ComposeApplies(worldBase, baseLink6, Apply(link6Camera, p));
    var inBase := Apply(Inverse(worldBase), p);
    var inLink6 := Apply(Inverse(baseLink6), inBase);
    var inCamera := Apply(Inverse(link6Camera), inLink6);
    InverseUndoes(worldBase, p);
    InverseUndoes(baseLink6, inBase);
    InverseUndoes(link6Camera, inLink6);
    ComposeApplies(arm, link6Camera, inCamera);
    ComposeApplies(worldBase, baseLink6, inLink6);
    assert Apply(chain, inCamera) == p;
    InverseUndoes(chain, inCamera);
  }

  lemma OrthonormalProduct(a: Mat3, b: Mat3)
    requires OrthonormalColumns(a) && OrthonormalColumns(b)
    ensures OrthonormalColumns(MulMat(a, b))
  {
    RotationKeepsDot(a, b.c0, b.c0);
    RotationKeepsDot(a, b.c1, b.c1);
    RotationKeepsDot(a, b.c2, b.c2);
    RotationKeepsDot(a, b.c0, b.c1);
    RotationKeepsDot(a, b.c0, b.c2);
    RotationKeepsDot(a, b.c1, b.c2);
  }

  /* ---- Pixels, rays and depth ---- */

  function Intrinsics(cam: Camera): Mat3 {
    Mat3(Vec3(cam.fx, 0.0, 0.0), Vec3(0.0, cam.fy, 0.0), Vec3(cam.cx, cam.cy, 1.0))
  }

  predicate CameraOk(cam: Camera) {
    cam.fx != 0.0 && cam.fy != 0.0
  }

  /** np.linalg.inv(camera_K) */
  function IntrinsicsInverse(cam: Camera): Mat3
    requires CameraOk(cam)
  {
    Mat3(Vec3(1.0 / cam.fx, 0.0, 0.0), Vec3(0.0, 1.0 / cam.fy, 0.0), Vec3(-cam.cx / cam.fx, -cam.cy / cam.fy, 1.0))
  }

  /** pixel_to_world, lines 263-267. */
  function PixelToWorld(cam: Camera, u: real, v: real, depth: real, pose: Pose): Vec3
    requires CameraOk(cam)
  {
    Apply(pose, Vec3((u - cam.cx) / cam.fx * depth, (v - cam.cy) / cam.fy * depth, depth))
  }

  /** `n` is np.linalg.norm(v). */
  predicate IsNorm(v: Vec3, n: real) {
    n >= 0.0 && n * n == Dot(v, v)
  }

  /** Direction of the pixel's ray in the world, before normalisation (lines 317-318). */
  function PixelRay(cam: Camera, u: real, v: real, pose: Pose): Vec3
    requires CameraOk(cam)
  {
    MulVec(pose.rot, MulVec(IntrinsicsInverse(cam), Vec3(u, v, 1.0)))
  }

  /** The normalised mesh ray of lines 319-329; n1 and n2 are the two norms it divides by. */
  function MeshRay(cam: Camera, u: real, v: real, pose: Pose, n1: real, n2: real): Vec3
    requires CameraOk(cam) && n1 != 0.0 && n2 != 0.0
  {
    Scale(1.0 / n2, Scale(1.0 / n1, PixelRay(cam, u, v, pose)))
  }

  function Origin(pose: Pose): Vec3 {
    Scale(MESH_DIMENSION, pose.trans)
  }

  function SquaredDistance(a: Vec3, b: Vec3): real {
    Dot(Sub(a, b), Sub(a, b))
  }

  /** Depth in the camera frame of a mesh point (lines 344-356). */
  function DepthOf(hit: Vec3, pose: Pose): real {
    Apply(Inverse(pose), Scale(1.0 / MESH_DIMENSION, hit)).z
  }

  /** np.argmin of the distances to the camera: the first nearest hit. */
  predicate FirstNearest(hits: seq<Vec3>, camera: Vec3, b: nat) {
    && b < |hits|
    && (forall j :: 0 <= j < |hits| ==> SquaredDistance(hits[b], camera) <= SquaredDistance(hits[j], camera))
    && (forall j :: 0 <= j < b ==> SquaredDistance(hits[b], camera) < SquaredDistance(hits[j], camera))
  }

  /** get_depth_from_mesh, given the points that the mesh library found on the ray. */
  method GetDepthFromMesh(pose: Pose, hits: seq<Vec3>) returns (r: Result<real, string>, best: nat)
    ensures r.Err? <==> hits == []
    ensures r.Ok? ==> FirstNearest(hits, Origin(pose), best) && r.value == DepthOf(hits[best], pose)
  {
    best := 0;
    if |hits| == 0 {
      return Err("No mesh surface hit"), 0;
    }
    var camera := Origin(pose);
    for i := 1 to |hits|
      invariant FirstNearest(hits[..i], camera, best)
    {
      if SquaredDistance(hits[i], camera) < SquaredDistance(hits[best], camera) {
        best := i;
      }
    }
    assert hits[..|hits|] == hits;
    r := Ok(DepthOf(hits[best], pose));
  }

  /** The inverse intrinsics undo the intrinsics, and give the direction that pixel_to_world scales by depth. */
  lemma PixelDirection(cam: Camera, u: real, v: real)
    requires CameraOk(cam)
    ensures var d := MulVec(IntrinsicsInverse(cam), Vec3(u, v, 1.0));
            && MulVec(Intrinsics(cam), d) == Vec3(u, v, 1.0)
            && d == Vec3((u - cam.cx) / cam.fx, (v - cam.cy) / cam.fy, 1.0)
  {
    assert u * (1.0 / cam.fx) + -cam.cx / cam.fx == (u - cam.cx) / cam.fx;
    assert v * (1.0 / cam.fy) + -cam.cy / cam.fy == (v - cam.cy) / cam.fy;
  }

  /** The ray is never the zero vector, so both norms are positive and the second one is 1. */
  lemma RayNorms(cam: Camera, u: real, v: real, pose: Pose, n1: real, n2: real)
    requires CameraOk(cam) && Rigid(pose)
    requires IsNorm(PixelRay(cam, u, v, pose), n1)
    requires n1 != 0.0 ==> IsNorm(Scale(1.0 / n1, PixelRay(cam, u, v, pose)), n2)
    ensures n1 > 0.0 && n2 == 1.0
  {
    RayNotZero(cam, u, v, pose);
    ScaledDot(1.0 / n1, PixelRay(cam, u, v, pose));
    InverseSquare(n1);
    SquareRootOfOne(n2);
  }

  lemma RayNotZero(cam: Camera, u: real, v: real, pose: Pose)
    requires CameraOk(cam) && Rigid(pose)
    ensures Dot(PixelRay(cam, u, v, pose), PixelRay(cam, u, v, pose)) >= 1.0
  {
    var d := MulVec(IntrinsicsInverse(cam), Vec3(u, v, 1.0));
    PixelDirection(cam, u, v);
    RotationKeepsDot(pose.rot, d, d);
    SquareNotNegative(d.x);
    SquareNotNegative(d.y);
  }

  lemma SquareNotNegative(x: real)
    ensures x * x >= 0.0
  {
  }

  lemma ScaledDot(k: real, v: Vec3)
    ensures Dot(Scale(k, v), Scale(k, v)) == k * (k * Dot(v, v))
  {
    DotLinear(Scale(k, v), k, v, v);
    DotLinear(v, k, v, v);
  }

  lemma InverseSquare(n: real)
    requires n > 0.0
    ensures 1.0 / n * (1.0 / n * (n * n)) == 1.0
  {
    var k := 1.0 / n;
    assert k * n == 1.0;
    calc {
      k * (k * (n * n));
      k * ((k * n) * n);
      k * n;
    }
  }

  lemma SquareRootOfOne(n: real)
    requires n >= 0.0 && n * n == 1.0
    ensures n == 1.0
  {
    if n > 1.0 { SquaresGrow(n, 1.0); }
    if n < 1.0 { SquaresGrow(1.0, n); }
  }

  /** A mesh point at parameter s of the pixel's ray has camera coordinates depth * direction. */
  lemma HitInCamera(cam: Camera, u: real, v: real, pose: Pose, n1: real, n2: real, s: real, hit: Vec3)
    requires CameraOk(cam) && Rigid(pose) && n1 > 0.0 && n2 == 1.0
    requires hit == Add(Origin(pose), Scale(s, MeshRay(cam, u, v, pose, n1, n2)))
    ensures DepthOf(hit, pose) == s / (MESH_DIMENSION * n1)
    ensures Scale(1.0 / MESH_DIMENSION, hit)
         == Apply(pose, Scale(DepthOf(hit, pose), MulVec(IntrinsicsInverse(cam), Vec3(u, v, 1.0))))
  {
    var d := MulVec(IntrinsicsInverse(cam), Vec3(u, v, 1.0));
    var ray, z := PixelRay(cam, u, v, pose), s / (MESH_DIMENSION * n1);
    var k := 1.0 / n1;
    assert Scale(1.0 / n2, Scale(k, ray)) == Scale(k, ray);
    assert z == s * k / MESH_DIMENSION by { assert s * k == s / n1; }
    ScaleTwice(1.0 / MESH_DIMENSION, MESH_DIMENSION, pose.trans);
    ScaleTwice(s, k, ray);
    ScaleTwiceAs(1.0 / MESH_DIMENSION, s * k, z, ray);
    ScaleAdd(1.0 / MESH_DIMENSION, Origin(pose), Scale(s * k, ray));
    assert Scale(1.0 / MESH_DIMENSION, hit) == Add(pose.trans, Scale(z, ray));
    MulVecScales(pose.rot, z, d);
    assert Scale(1.0 / MESH_DIMENSION, hit) == Apply(pose, Scale(z, d));
    InverseUndoes(pose, Scale(z, d));
    PixelDirection(cam, u, v);
  }

  lemma ScaledUnit(k: real, unit: Vec3)
    requires Dot(unit, unit) == 1.0
    ensures Dot(Scale(k, unit), Scale(k, unit)) == k * k
  {
    var su := Scale(k, unit);
    DotLinear(unit, k, unit, unit);
    assert Dot(unit, su) == k;
    DotLinear(su, k, unit, unit);
    assert Dot(su, unit) == k;
  }

  lemma SquaresGrow(a: real, b: real)
    requires a > b >= 0.0
    ensures a * a > b * b
  {
    var d := a - b;
    assert a * a == b * b + 2.0 * (b * d) + d * d;
    assert b * d >= 0.0 && d * d > 0.0;
  }

  lemma QuotientsGrow(a: real, b: real, c: real)
    requires a <= b && c > 0.0
    ensures a / c <= b / c
  {
    assert (b - a) / c >= 0.0;
    assert (b - a) / c == b / c - a / c;
  }

  lemma ScaleTwice(a: real, b: real, v: Vec3)
    ensures Scale(a, Scale(b, v)) == Scale(a * b, v)
  {
    ScaleTwiceAs(a, b, a * b, v);
  }

  lemma Commute(a: real, b: real)
    ensures a * b == b * a
  {
  }

  lemma UnprojectionScalesRay(cam: Camera, u: real, v: real, z: real, pose: Pose)
    requires CameraOk(cam)
    ensures PixelToWorld(cam, u, v, z, pose)
         == Apply(pose, Scale(z, MulVec(IntrinsicsInverse(cam), Vec3(u, v, 1.0))))
  {
    PixelDirection(cam, u, v);
    Commute((u - cam.cx) / cam.fx, z);
    Commute((v - cam.cy) / cam.fy, z);
  }

  /** Ray casting and unprojection are inverse: for every rigid camera pose, pixel and mesh hit on that
      pixel's ray, unprojecting the pixel at the hit's depth gives the hit in world metres, and scaling by
      MESH_DIMENSION (world_to_mesh, and line 641 for z) gives the mesh coordinates back. */
  lemma RayCastRoundTrip(cam: Camera, u: real, v: real, pose: Pose, n1: real, n2: real, s: real, hit: Vec3)
    requires CameraOk(cam) && Rigid(pose)
    requires IsNorm(PixelRay(cam, u, v, pose), n1)
    requires n1 != 0.0 ==> IsNorm(Scale(1.0 / n1, PixelRay(cam, u, v, pose)), n2)
    requires n1 != 0.0 && n2 != 0.0 ==> hit == Add(Origin(pose), Scale(s, MeshRay(cam, u, v, pose, n1, n2)))
    ensures PixelToWorld(cam, u, v, DepthOf(hit, pose), pose) == Scale(1.0 / 1000.0, hit)
    ensures Scale(1000.0, PixelToWorld(cam, u, v, DepthOf(hit, pose), pose)) == hit
  {
    RayNorms(cam, u, v, pose, n1, n2);
    HitInCamera(cam, u, v, pose, n1, n2, s, hit);
    UnprojectionScalesRay(cam, u, v, DepthOf(hit, pose), pose);
    ScaleTwice(MESH_DIMENSION, 1.0 / MESH_DIMENSION, hit);
  }

  /** The hit nearest to the camera is the one of least depth: what the camera sees at that pixel. */
  lemma NearestHitHasLeastDepth(
    cam: Camera, u: real, v: real, pose: Pose, n1: real, n2: real, hits: seq<Vec3>, s: seq<real>, b: nat, j: nat)
    requires CameraOk(cam) && Rigid(pose)
    requires IsNorm(PixelRay(cam, u, v, pose), n1)
    requires n1 != 0.0 ==> IsNorm(Scale(1.0 / n1, PixelRay(cam, u, v, pose)), n2)
    requires |s| == |hits| && forall i :: 0 <= i < |s| ==> s[i] >= 0.0
    requires n1 != 0.0 && n2 != 0.0 ==>
               forall i :: 0 <= i < |hits| ==>
                 hits[i] == Add(Origin(pose), Scale(s[i], MeshRay(cam, u, v, pose, n1, n2)))
    requires FirstNearest(hits, Origin(pose), b) && j < |hits|
    ensures DepthOf(hits[b], pose) <= DepthOf(hits[j], pose)
  {
    RayNorms(cam, u, v, pose, n1, n2);
    var unit := MeshRay(cam, u, v, pose, n1, n2);
    assert unit == Scale(1.0 / n1, PixelRay(cam, u, v, pose));
    assert Dot(unit, unit) == 1.0;
    var near, far := s[b], s[j];
    HitInCamera(cam, u, v, pose, n1, n2, near, hits[b]);
    HitInCamera(cam, u, v, pose, n1, n2, far, hits[j]);
    assert Sub(hits[b], Origin(pose)) == Scale(near, unit) && Sub(hits[j], Origin(pose)) == Scale(far, unit);
    ScaledUnit(near, unit);
    ScaledUnit(far, unit);
    assert SquaredDistance(hits[b], Origin(pose)) <= SquaredDistance(hits[j], Origin(pose));
    assert near * near <= far * far;
    if near > far { SquaresGrow(near, far); }
    QuotientsGrow(near, far, MESH_DIMENSION * n1);
  }

  /* ---- From world to robot base ---- */

  /** mesh_pose_to_base: inv(T_w_b) @ T_world_ee */
  function MeshPoseToBase(worldEe: Pose, worldBase: Pose): Pose {
    Compose(Inverse(worldBase), worldEe)
  }

  /** check_reachable, with np.linalg.norm(t) > reach written without the square root. */
  predicate CheckReachable(baseEe: Pose, reach: real) {
    var t := baseEe.trans;
    && !(reach < 0.0 || Dot(t, t) > reach * reach)
    && !(t.z < -0.05)
  }

  lemma BaseToWorld(worldEe: Pose, worldBase: Pose)
    requires Rigid(worldBase)
    ensures Compose(worldBase, MeshPoseToBase(worldEe, worldBase)) == worldEe
  {
    InverseUndoes(worldBase, worldEe.trans);
    var rt := Transpose(worldBase.rot);
    assert Transpose(rt) == worldBase.rot;
    RotateBack(rt, worldEe.rot.c0);
    RotateBack(rt, worldEe.rot.c1);
    RotateBack(rt, worldEe.rot.c2);
  }

  /** The position in the base frame, along each axis of the base. */
  lemma PositionInBase(worldEe: Pose, worldBase: Pose)
    ensures var d, r := Sub(worldEe.trans, worldBase.trans), worldBase.rot;
            MeshPoseToBase(worldEe, worldBase).trans == Vec3(Dot(r.c0, d), Dot(r.c1, d), Dot(r.c2, d))
  {
    var d, rt := Sub(worldEe.trans, worldBase.trans), Transpose(worldBase.rot);
    MulVecAdds(rt, worldEe.trans, Scale(-1.0, worldBase.trans));
    MulVecScales(rt, -1.0, worldBase.trans);
    assert Add(worldEe.trans, Scale(-1.0, worldBase.trans)) == d;
    assert MeshPoseToBase(worldEe, worldBase).trans == MulVec(rt, d);
    TransposeRows(worldBase.rot, d);
  }

  /** Seen in the world, the reachable poses are those within `reach` of the base and at most 5 cm below
      the base plane, whatever the orientation of the base. */
  lemma ReachableInWorld(worldEe: Pose, worldBase: Pose, reach: real)
    requires Rigid(worldBase)
    ensures var d := Sub(worldEe.trans, worldBase.trans);
            CheckReachable(MeshPoseToBase(worldEe, worldBase), reach) <==>
            (reach >= 0.0 && Dot(d, d) <= reach * reach && Dot(worldBase.rot.c2, d) >= -0.05)
  {
    var d, rt := Sub(worldEe.trans, worldBase.trans), Transpose(worldBase.rot);
    var t := MeshPoseToBase(worldEe, worldBase).trans;
    MulVecLinear(rt, worldEe.trans, Scale(-1.0, worldBase.trans), 1.0);
    MulVecLinear(rt, worldBase.trans, d, -1.0);
    assert Add(worldEe.trans, Scale(-1.0, worldBase.trans)) == d;
    assert t == MulVec(rt, d);
    RotationKeepsDot(rt, d, d);
    TransposeRows(worldBase.rot, d);
  }
}

/** Building and executing the end-effector trajectory of scripts/blow_from_mesh.py:
    quaternion signs, knots, decimation and the pre-flight check (lines 375-406, 419-470, 540-590). */
module Trajectory {
  import opened MeshGeometry
  import opened Wrappers

  /* ---- Quaternion signs ---- */

  datatype Quat = Quat(x: real, y: real, z: real, w: real)

  function DotQ(a: Quat, b: Quat): real {
    a.x * b.x + a.y * b.y + a.z * b.z + a.w * b.w
  }

  function Neg(q: Quat): Quat {
    Quat(-q.x, -q.y, -q.z, -q.w)
  }

  datatype Products = Products(
    xx: real, yy: real, zz: real, ww: real, xy: real, xz: real, xw: real, yz: real, yw: real, zw: real)

  function ProductsOf(q: Quat): Products {
    Products(q.x * q.x, q.y * q.y, q.z * q.z, q.w * q.w,
             q.x * q.y, q.x * q.z, q.x * q.w, q.y * q.z, q.y * q.w, q.z * q.w)
  }

  function MatrixOf(p: Products): Mat3 {
    Mat3(
      Vec3(p.xx - p.yy - p.zz + p.ww, 2.0 * (p.xy + p.zw), 2.0 * (p.xz - p.yw)),
      Vec3(2.0 * (p.xy - p.zw), p.yy - p.xx - p.zz + p.ww, 2.0 * (p.yz + p.xw)),
      Vec3(2.0 * (p.xz + p.yw), 2.0 * (p.yz - p.xw), p.zz - p.xx - p.yy + p.ww))
  }

  /** as_matrix of a unit quaternion. */
  function RotationMatrix(q: Quat): Mat3 {
    MatrixOf(ProductsOf(q))
  }

  function Aligned(prev: Quat, q: Quat): Quat {
    if DotQ(prev, q) < 0.0 then Neg(q) else q
  }

  /** What the sign loop leaves: each quaternion aligned with the already aligned one before it. */
  function Propagated(qs: seq<Quat>): (out: seq<Quat>)
    ensures |out| == |qs|
  {
    if |qs| <= 1 then qs
    else
      var out := Propagated(qs[..|qs| - 1]);
      out + [Aligned(out[|qs| - 2], qs[|qs| - 1])]
  }

  /** Lines 384-386 and 454-456, in place. */
  method PropagateSigns(quats: array<Quat>)
    modifies quats
    ensures quats[..] == Propagated(old(quats[..]))
  {
    ghost var qs := quats[..];
    var i := 1;
    while i < quats.Length
      invariant 1 <= i && (quats.Length > 0 ==> i <= quats.Length)
      invariant quats.Length > 0 ==> quats[..i] == Propagated(qs[..i])
      invariant forall j :: i <= j < quats.Length ==> quats[j] == qs[j]
    {
      if DotQ(quats[i - 1], quats[i]) < 0.0 {
        quats[i] := Neg(quats[i]);
      }
      assert qs[..i + 1][..i] == qs[..i];
      assert quats[..i + 1] == Propagated(qs[..i]) + [Aligned(Propagated(qs[..i])[i - 1], qs[i])];
      i := i + 1;
    }
    if quats.Length > 0 {
      assert qs[..i] == qs && quats[..i] == quats[..];
    }
  }

  ghost predicate ShortArcs(qs: seq<Quat>) {
    forall i, j :: 0 <= i < j < |qs| && j == i + 1 ==> DotQ(qs[i], qs[j]) >= 0.0
  }

  /** Same quaternions up to sign, the first one untouched. */
  ghost predicate SignChoice(out: seq<Quat>, qs: seq<Quat>) {
    && |out| == |qs|
    && (qs != [] ==> out[0] == qs[0])
    && forall i :: 0 <= i < |qs| ==> out[i] == qs[i] || out[i] == Neg(qs[i])
  }

  lemma NegDot(a: Quat, b: Quat)
    ensures DotQ(a, Neg(b)) == -DotQ(a, b) && DotQ(Neg(a), b) == -DotQ(a, b)
  {
  }

  lemma NegProduct(a: real, b: real)
    ensures (-a) * (-b) == a * b
  {
  }

  lemma NegProducts(q: Quat)
    ensures ProductsOf(Neg(q)) == ProductsOf(q)
  {
    var n := Neg(q);
    assert n.x * n.x == q.x * q.x by { NegProduct(q.x, q.x); }
    assert n.y * n.y == q.y * q.y by { NegProduct(q.y, q.y); }
    assert n.z * n.z == q.z * q.z by { NegProduct(q.z, q.z); }
    assert n.w * n.w == q.w * q.w by { NegProduct(q.w, q.w); }
    assert n.x * n.y == q.x * q.y by { NegProduct(q.x, q.y); }
    assert n.x * n.z == q.x * q.z by { NegProduct(q.x, q.z); }
    assert n.x * n.w == q.x * q.w by { NegProduct(q.x, q.w); }
    assert n.y * n.z == q.y * q.z by { NegProduct(q.y, q.z); }
    assert n.y * n.w == q.y * q.w by { NegProduct(q.y, q.w); }
    assert n.z * n.w == q.z * q.w by { NegProduct(q.z, q.w); }
  }

  /** A quaternion and its negative are one rotation. */
  lemma NegKeepsRotation(q: Quat)
    ensures RotationMatrix(Neg(q)) == RotationMatrix(q)
  {
    NegProducts(q);
  }

  /** For every list: only signs change, consecutive quaternions end on the short arc,
      and every rotation matrix is the one it was. */
  lemma {:induction false} SignsPropagate(qs: seq<Quat>)
    ensures SignChoice(Propagated(qs), qs) && ShortArcs(Propagated(qs))
    ensures forall i :: 0 <= i < |qs| ==> RotationMatrix(Propagated(qs)[i]) == RotationMatrix(qs[i])
  {
    if |qs| > 1 {
      var m := |qs| - 1;
      SignsPropagate(qs[..m]);
      AlignOneMore(qs, Propagated(qs[..m]));
    }
    ChoiceKeepsRotations(Propagated(qs), qs);
  }

  /** Aligning the last quaternion with the one before it keeps what the list has so far. */
  lemma AlignOneMore(qs: seq<Quat>, out: seq<Quat>)
    requires |qs| > 1 && SignChoice(out, qs[..|qs| - 1]) && ShortArcs(out)
    ensures var all := out + [Aligned(out[|out| - 1], qs[|qs| - 1])]; SignChoice(all, qs) && ShortArcs(all)
  {
    var m := |qs| - 1;
    NegDot(out[m - 1], qs[m]);
    assert forall i :: 0 <= i < m ==> qs[..m][i] == qs[i];
  }

  lemma ChoiceKeepsRotations(out: seq<Quat>, qs: seq<Quat>)
    requires SignChoice(out, qs)
    ensures forall i :: 0 <= i < |qs| ==> RotationMatrix(out[i]) == RotationMatrix(qs[i])
  {
    forall i | 0 <= i < |qs| ensures RotationMatrix(out[i]) == RotationMatrix(qs[i]) {
      NegKeepsRotation(qs[i]);
    }
  }

  lemma OnlyAlignment(prev: Quat, a: Quat, q: Quat, o: Quat)
    requires (a == prev || a == Neg(prev)) && (o == q || o == Neg(q))
    requires DotQ(prev, q) != 0.0 && DotQ(a, o) >= 0.0
    ensures o == Aligned(a, q)
  {
    NegDot(prev, q);
    NegDot(a, q);
  }

  /** When no consecutive pair is orthogonal, the loop's choice of signs is the only one on short arcs. */
  lemma {:induction false} ShortArcsUnique(qs: seq<Quat>, out: seq<Quat>)
    requires SignChoice(out, qs) && ShortArcs(out)
    requires NoRightAngles(qs)
    ensures out == Propagated(qs)
  {
    if |qs| > 1 {
      var m := |qs| - 1;
      ShorterChoice(qs, out, m);
      ShortArcsUnique(qs[..m], out[..m]);
      var p := Propagated(qs[..m]);
      assert out[m - 1] == out[..m][m - 1] == p[m - 1];
      LastAlignment(qs, out);
      assert out == out[..m] + [out[m]];
    } else if |qs| == 1 {
      assert out == [qs[0]];
    }
  }

  lemma LastAlignment(qs: seq<Quat>, out: seq<Quat>)
    requires SignChoice(out, qs) && ShortArcs(out) && NoRightAngles(qs) && |qs| > 1
    ensures out[|qs| - 1] == Aligned(out[|qs| - 2], qs[|qs| - 1])
  {
    var m := |qs| - 1;
    OnlyAlignment(qs[m - 1], out[m - 1], qs[m], out[m]);
  }

  lemma ShorterChoice(qs: seq<Quat>, out: seq<Quat>, m: nat)
    requires SignChoice(out, qs) && ShortArcs(out) && NoRightAngles(qs) && 0 < m <= |qs|
    ensures SignChoice(out[..m], qs[..m]) && ShortArcs(out[..m]) && NoRightAngles(qs[..m])
  {
  }

  ghost predicate NoRightAngles(qs: seq<Quat>) {
    forall i, j :: 0 <= i < j < |qs| && j == i + 1 ==> DotQ(qs[i], qs[j]) != 0.0
  }

  /** A second pass changes nothing. */
  lemma {:induction false} SettledSignsStay(qs: seq<Quat>)
    requires ShortArcs(qs)
    ensures Propagated(qs) == qs
  {
    if |qs| > 1 {
      SettledSignsStay(qs[..|qs| - 1]);
    }
  }

  lemma SecondPassChangesNothing(qs: seq<Quat>)
    ensures Propagated(Propagated(qs)) == Propagated(qs)
  {
    SignsPropagate(qs);
    SettledSignsStay(Propagated(qs));
  }

  /** consistent_rotations: since a quaternion and its negative give one matrix, the rewritten poses are
      exactly the given ones. `quats` are the quaternions the library read off the poses. */
  method ConsistentRotations(poses: seq<Pose>, quats: seq<Quat>) returns (out: seq<Pose>)
    requires |quats| == |poses|
    requires forall i :: 0 <= i < |poses| ==> RotationMatrix(quats[i]) == poses[i].rot
    ensures out == poses
  {
    var copies := new Pose[|poses|](i requires 0 <= i < |poses| => poses[i]);
    var qs := new Quat[|quats|](i requires 0 <= i < |quats| => quats[i]);
    assert copies[..] == poses && qs[..] == quats;
    var i := 1;
    while i < |quats|
      invariant 1 <= i
      invariant copies[..] == poses
      invariant forall j :: i <= j < |quats| ==> qs[j] == quats[j]
    {
      NegKeepsRotation(qs[i]);
      if DotQ(qs[i - 1], qs[i]) < 0.0 {
        qs[i] := Neg(qs[i]);
      }
      copies[i] := Pose(RotationMatrix(qs[i]), copies[i].trans);
      i := i + 1;
    }
    out := copies[..];
  }

  /* ---- Knots ---- */

  const MIN_STEP := 0.00000001

  /** np.maximum(d, 1e-8) */
  function Clamped(d: real): (c: real)
    ensures d >= 0.00000001 ==> c == d
    ensures d <= 0.00000001 ==> c == 0.00000001
  {
    if d > MIN_STEP then d else MIN_STEP
  }

  /** Sum of the first k clamped distances. */
  function ArcLength(dists: seq<real>, k: nat): (s: real)
    requires k <= |dists|
    ensures s >= 0.0 && (k > 0 ==> s > 0.0)
  {
    if k == 0 then 0.0 else ArcLength(dists, k - 1) + Clamped(dists[k - 1])
  }

  function Knot(dists: seq<real>, k: nat): real
    requires |dists| > 0 && k <= |dists|
  {
    ArcLength(dists, k) / ArcLength(dists, |dists|)
  }

  function KnotList(dists: seq<real>): (t: seq<real>)
    requires |dists| > 0
    ensures |t| == |dists| + 1 && forall k :: 0 <= k < |t| ==> t[k] == Knot(dists, k)
  {
    seq(|dists| + 1, k requires 0 <= k <= |dists| => Knot(dists, k))
  }

  /** np.concatenate([[0.0], np.cumsum(np.maximum(dists, 1e-8))]) */
  method CumulativeLengths(dists: seq<real>) returns (t: array<real>)
    ensures fresh(t) && t.Length == |dists| + 1
    ensures forall k :: 0 <= k <= |dists| ==> t[k] == ArcLength(dists, k)
  {
    t := new real[|dists| + 1];
    t[0] := 0.0;
    for k := 0 to |dists|
      invariant forall j {:trigger t[j]} :: 0 <= j <= k ==> t[j] == ArcLength(dists, j)
    {
      assert ArcLength(dists, k + 1) == ArcLength(dists, k) + Clamped(dists[k]);
      t[k + 1] := t[k] + Clamped(dists[k]);
    }
  }

  /** Lines 438-447: `dists` are the norms of the n - 1 differences of the n translations. */
  method GenerateKnots(n: nat, dists: seq<real>) returns (r: Result<seq<real>, string>)
    requires |dists| == if n == 0 then 0 else n - 1
    ensures r.Err? <==> n < 2
    ensures r.Ok? ==> r.value == KnotList(dists)
  {
    if n < 2 {
      return Err("Need at least 2 poses to generate a trajectory.");
    }
    var t := CumulativeLengths(dists);
    DivideBy(t, t[n - 1]);
    assert t[..] == KnotList(dists);
    r := Ok(t[..]);
  }

  /** t /= total */
  method DivideBy(t: array<real>, total: real)
    requires total != 0.0
    modifies t
    ensures forall j :: 0 <= j < t.Length ==> t[j] == old(t[j]) / total
  {
    for i := 0 to t.Length
      invariant forall j :: 0 <= j < i ==> t[j] == old(t[j]) / total
      invariant forall j :: i <= j < t.Length ==> t[j] == old(t[j])
    {
      t[i] := t[i] / total;
    }
  }

  lemma {:induction false} ArcLengthGrows(dists: seq<real>, i: nat, j: nat)
    requires i < j <= |dists|
    ensures ArcLength(dists, i) < ArcLength(dists, j)
    decreases j
  {
    if i < j - 1 {
      ArcLengthGrows(dists, i, j - 1);
    }
  }

  lemma FractionGrows(a: real, b: real, c: real)
    requires a < b && c > 0.0
    ensures a / c < b / c
  {
    var d := b - a;
    assert d / c > 0.0;
    assert (a + d) / c == a / c + d / c;
  }

  lemma QuotientTimes(a: real, c: real)
    requires c > 0.0
    ensures a / c * c == a && c / c == 1.0
  {
  }

  /** The knots are the arc length: each step is the clamped distance over the total. */
  lemma KnotStep(dists: seq<real>, i: nat)
    requires i < |dists|
    ensures (Knot(dists, i + 1) - Knot(dists, i)) * ArcLength(dists, |dists|) == Clamped(dists[i])
  {
    var a, b, total := Knot(dists, i + 1), Knot(dists, i), ArcLength(dists, |dists|);
    QuotientTimes(ArcLength(dists, i + 1), total);
    QuotientTimes(ArcLength(dists, i), total);
    assert (a - b) * total == a * total - b * total;
  }

  lemma KnotsIncrease(dists: seq<real>, i: nat, j: nat)
    requires i < j <= |dists|
    ensures Knot(dists, i) < Knot(dists, j)
  {
    ArcLengthGrows(dists, i, j);
    FractionGrows(ArcLength(dists, i), ArcLength(dists, j), ArcLength(dists, |dists|));
  }

  lemma KnotEnds(dists: seq<real>)
    requires |dists| > 0
    ensures Knot(dists, 0) == 0.0 && Knot(dists, |dists|) == 1.0
  {
    QuotientTimes(0.0, ArcLength(dists, |dists|));
  }

  /** For any positions, repeated ones included, the knots run from 0 to 1 and strictly increase. */
  lemma KnotsValid(dists: seq<real>, i: nat, j: nat)
    requires |dists| > 0 && i < j <= |dists|
    ensures var t := KnotList(dists);
            && t[0] == 0.0 && t[|dists|] == 1.0
            && t[i] < t[j]
  {
    KnotEnds(dists);
    KnotsIncrease(dists, i, j);
  }

  /** np.linspace(0, 1, m + 1) */
  function Linspace(m: nat): (t: seq<real>)
    ensures |t| == m + 1
  {
    if m == 0 then [0.0] else seq(m + 1, k => k as real / m as real)
  }

  /** Some knot interval holds t. */
  lemma {:induction false} FindInterval(knots: seq<real>, t: real) returns (i: nat)
    requires |knots| >= 2 && knots[0] <= t <= knots[|knots| - 1]
    ensures i + 1 < |knots| && knots[i] <= t <= knots[i + 1]
  {
    i := |knots| - 2;
    if t < knots[i] {
      i := FindInterval(knots[..|knots| - 1], t);
    }
  }

  lemma DenseInUnit(m: nat, k: nat)
    requires m > 0 && k <= m
    ensures var t := Linspace(m);
            && t[0] == 0.0 && t[m] == 1.0 && 0.0 <= t[k] <= 1.0 && (k > 0 ==> t[k - 1] < t[k])
            && t[k] * m as real == k as real
  {
    QuotientTimes(k as real, m as real);
    QuotientTimes(0.0, m as real);
    if k > 0 {
      FractionGrows((k - 1) as real, k as real, m as real);
      FractionGrows(0.0, k as real, m as real);
    }
    if k < m {
      FractionGrows(k as real, m as real, m as real);
    }
  }

  /** The (n - 1) * n_interp + 1 dense parameters start at 0, end at 1, are evenly spaced, and every one lies
      between two neighbouring knots, so neither interpolator is asked to extrapolate. */
  lemma DenseParametersCovered(n: nat, nInterp: nat, dists: seq<real>, k: nat)
    requires n >= 2 && nInterp >= 1 && |dists| == n - 1
    requires k <= (n - 1) * nInterp
    ensures var t, knots := Linspace((n - 1) * nInterp), KnotList(dists);
            && |t| == (n - 1) * nInterp + 1
            && t[0] == 0.0 && t[|t| - 1] == 1.0 && 0.0 <= t[k] <= 1.0
            && (k > 0 ==> t[k - 1] < t[k]) && t[k] * ((n - 1) * nInterp) as real == k as real
            && exists i :: 0 <= i < n - 1 && knots[i] <= t[k] <= knots[i + 1]
  {
    var m := (n - 1) * nInterp;
    assert m > 0;
    DenseInUnit(m, k);
    KnotEnds(dists);
    var i := FindInterval(KnotList(dists), Linspace(m)[k]);
  }

  /* ---- Decimation, pre-flight check, execution ---- */

  /** A pose as Python holds it: an object with an identity. */
  class PoseObject {
    const pose: Pose

    constructor (pose: Pose)
      ensures this.pose == pose
    {
      this.pose := pose;
    }
  }

  /** Indexes of trajectory[from::skip]. */
  function Samples(from: nat, n: nat, skip: nat): seq<nat>
    requires skip >= 1
    decreases n + skip - from
  {
    if from >= n then [] else [from] + Samples(from + skip, n, skip)
  }

  ghost predicate StepsBy(s: seq<nat>, skip: nat) {
    forall i, j :: 0 <= i < j < |s| && j == i + 1 ==> s[j] == s[i] + skip
  }

  lemma {:induction false} SamplesSpaced(from: nat, n: nat, skip: nat)
    requires skip >= 1 && from < n
    ensures var s := Samples(from, n, skip);
            && |s| > 0 && s[0] == from
            && (forall i :: 0 <= i < |s| ==> s[i] < n)
            && StepsBy(s, skip)
            && n - skip <= s[|s| - 1]
    decreases n - from
  {
    var s, rest := Samples(from, n, skip), Samples(from + skip, n, skip);
    assert s == [from] + rest;
    if from + skip < n {
      SamplesSpaced(from + skip, n, skip);
      forall i, j | 0 <= i < j < |s| && j == i + 1 ensures s[j] == s[i] + skip {
        if i > 0 { assert rest[j - 1] == rest[i - 1] + skip; }
      }
      assert s[|s| - 1] == rest[|rest| - 1];
    }
  }

  /** In order, starting at 0, below n, with gaps of at most skip. */
  ghost predicate OrderedCover(ix: seq<nat>, n: nat, skip: nat) {
    && |ix| > 0 && ix[0] == 0
    && (forall i :: 0 <= i < |ix| ==> ix[i] < n)
    && (forall i, j :: 0 <= i < j < |ix| && j == i + 1 ==> ix[i] < ix[j] <= ix[i] + skip)
  }

  /** The last index of trajectory[::skip]. */
  function LastSample(n: nat, skip: nat): (last: nat)
    requires skip >= 1 && n > 0
    ensures last < n
  {
    SamplesSpaced(0, n, skip);
    var s := Samples(0, n, skip);
    s[|s| - 1]
  }

  /** Indexes of the waypoints: every skip-th, and the last pose when the slice did not end on that object. */
  function WaypointIndexes(trajectory: seq<PoseObject>, skip: nat): (ix: seq<nat>)
    requires skip >= 1 && trajectory != []
  {
    var n := |trajectory|;
    Samples(0, n, skip) + if trajectory[n - 1] == trajectory[LastSample(n, skip)] then [] else [n - 1]
  }

  ghost predicate DistinctObjects(trajectory: seq<PoseObject>) {
    forall i, j :: 0 <= i < j < |trajectory| ==> trajectory[i] != trajectory[j]
  }

  lemma SamplesCover(n: nat, skip: nat, extra: seq<nat>)
    requires skip >= 1 && n > 0
    requires extra == [] || (extra == [n - 1] && LastSample(n, skip) < n - 1)
    ensures var ix := Samples(0, n, skip) + extra;
            && OrderedCover(ix, n, skip)
            && ix[|ix| - 1] == if extra == [] then LastSample(n, skip) else n - 1
  {
    SamplesSpaced(0, n, skip);
  }

  /** The waypoints form an ordered subsequence that starts with the first pose, ends with the last one,
      and never skips more than `skip`. */
  lemma WaypointsCover(trajectory: seq<PoseObject>, skip: nat)
    requires skip >= 1 && trajectory != []
    ensures var ix := WaypointIndexes(trajectory, skip);
            && OrderedCover(ix, |trajectory|, skip)
            && trajectory[ix[|ix| - 1]] == trajectory[|trajectory| - 1]
  {
    var n := |trajectory|;
    SamplesCover(n, skip, if trajectory[n - 1] == trajectory[LastSample(n, skip)] then [] else [n - 1]);
  }

  lemma OnlyOnce(trajectory: seq<PoseObject>, i: nat, j: nat)
    requires DistinctObjects(trajectory) && i < |trajectory| && j < |trajectory| && trajectory[i] == trajectory[j]
    ensures i == j
  {
  }

  /** If the poses are distinct objects, the last waypoint is the last pose itself. */
  lemma LastPoseReached(trajectory: seq<PoseObject>, skip: nat)
    requires skip >= 1 && trajectory != [] && DistinctObjects(trajectory)
    ensures var ix := WaypointIndexes(trajectory, skip);
            |ix| > 0 && ix[|ix| - 1] == |trajectory| - 1
  {
    WaypointsCover(trajectory, skip);
    var ix := WaypointIndexes(trajectory, skip);
    OnlyOnce(trajectory, ix[|ix| - 1], |trajectory| - 1);
  }

  function PosesAt(trajectory: seq<PoseObject>, ix: seq<nat>): (w: seq<Pose>)
    requires forall i :: 0 <= i < |ix| ==> ix[i] < |trajectory|
    ensures |w| == |ix| && forall i :: 0 <= i < |ix| ==> w[i] == trajectory[ix[i]].pose
  {
    seq(|ix|, i requires 0 <= i < |ix| => trajectory[ix[i]].pose)
  }

  datatype Posx = Posx(x: real, y: real, z: real, rz1: real, ry: real, rz2: real)

  /** se3_to_doosan_posx; `euler` is the library's ZYZ conversion. */
  function DoosanPosx(baseEe: Pose, euler: Mat3 -> Vec3): Posx {
    var t, e := Scale(1000.0, baseEe.trans), euler(baseEe.rot);
    Posx(t.x, t.y, t.z + 35.0, e.x, e.y, e.z)
  }

  lemma EachWaypoint(w: seq<Pose>, worldBase: Pose, euler: Mat3 -> Vec3)
    requires Rigid(worldBase)
    ensures forall i :: 0 <= i < |w| ==> (WaypointReachable(w[i], worldBase) <==> InReach(w[i], worldBase))
    ensures forall i :: 0 <= i < |w| ==>
              CommandFor(DoosanPosx(MeshPoseToBase(w[i], worldBase), euler), w[i], worldBase, euler)
  {
    forall i | 0 <= i < |w|
      ensures WaypointReachable(w[i], worldBase) <==> InReach(w[i], worldBase)
      ensures CommandFor(DoosanPosx(MeshPoseToBase(w[i], worldBase), euler), w[i], worldBase, euler)
    {
      ReachableMeansInReach(w[i], worldBase);
      PosxIsCommand(w[i], worldBase, euler);
    }
  }

  const ROBOT_REACH := 0.900

  datatype Execution = Done | EmptyTrajectory | Unreachable(waypoint: nat)

  predicate WaypointReachable(worldEe: Pose, worldBase: Pose) {
    CheckReachable(MeshPoseToBase(worldEe, worldBase), ROBOT_REACH)
  }

  /** In the world, over real distances: the waypoint is within 0.9 m of the base and at most 5 cm under its plane. */
  predicate InReach(worldEe: Pose, worldBase: Pose) {
    var d := Sub(worldEe.trans, worldBase.trans);
    Dot(d, d) <= 0.81 && Dot(worldBase.rot.c2, d) >= -0.05
  }

  lemma ReachableMeansInReach(worldEe: Pose, worldBase: Pose)
    requires Rigid(worldBase)
    ensures WaypointReachable(worldEe, worldBase) <==> InReach(worldEe, worldBase)
  {
    ReachableInWorld(worldEe, worldBase, ROBOT_REACH);
  }

  /** A command for a waypoint: its coordinates, in millimetres and without the 35 mm of the tool, are the
      waypoint's position along the axes of the base, and its angles those of the rotation relative to the base,
      first, second and third as the library gives them. */
  predicate CommandFor(m: Posx, worldEe: Pose, worldBase: Pose, euler: Mat3 -> Vec3) {
    var d := Sub(worldEe.trans, worldBase.trans);
    && m.x == 1000.0 * Dot(worldBase.rot.c0, d)
    && m.y == 1000.0 * Dot(worldBase.rot.c1, d)
    && m.z == 1000.0 * Dot(worldBase.rot.c2, d) + 35.0
    && Vec3(m.rz1, m.ry, m.rz2) == euler(MulMat(Transpose(worldBase.rot), worldEe.rot))
  }

  lemma PosxIsCommand(worldEe: Pose, worldBase: Pose, euler: Mat3 -> Vec3)
    requires Rigid(worldBase)
    ensures CommandFor(DoosanPosx(MeshPoseToBase(worldEe, worldBase), euler), worldEe, worldBase, euler)
  {
    PositionInBase(worldEe, worldBase);
  }

  /** Taken back from millimetres and the 35 mm, a command's position seen from the base is the waypoint. */
  lemma CommandReachesWaypoint(m: Posx, worldEe: Pose, worldBase: Pose, euler: Mat3 -> Vec3)
    requires Rigid(worldBase) && CommandFor(m, worldEe, worldBase, euler)
    ensures Apply(worldBase, Vec3(m.x / 1000.0, m.y / 1000.0, (m.z - 35.0) / 1000.0)) == worldEe.trans
  {
    var inBase := MeshPoseToBase(worldEe, worldBase).trans;
    PositionInBase(worldEe, worldBase);
    assert Vec3(m.x / 1000.0, m.y / 1000.0, (m.z - 35.0) / 1000.0) == inBase;
    InverseUndoes(worldBase, worldEe.trans);
  }

  /** Lines 565-570: stop at the first waypoint that is not reachable. */
  method PreFlight(w: seq<Pose>, worldBase: Pose) returns (outcome: Execution)
    ensures outcome == Done || outcome.Unreachable?
    ensures outcome == Done <==> forall i :: 0 <= i < |w| ==> WaypointReachable(w[i], worldBase)
    ensures outcome.Unreachable? ==>
              && outcome.waypoint < |w| && !WaypointReachable(w[outcome.waypoint], worldBase)
              && forall i :: 0 <= i < outcome.waypoint ==> WaypointReachable(w[i], worldBase)
  {
    for i := 0 to |w|
      invariant forall j :: 0 <= j < i ==> WaypointReachable(w[j], worldBase)
    {
      if !CheckReachable(MeshPoseToBase(w[i], worldBase), ROBOT_REACH) {
        return Unreachable(i);
      }
    }
    outcome := Done;
  }

  /** Lines 573-578: one movel per waypoint. */
  method SendMoves(w: seq<Pose>, worldBase: Pose, euler: Mat3 -> Vec3) returns (moves: seq<Posx>)
    ensures |moves| == |w|
    ensures forall i :: 0 <= i < |w| ==> moves[i] == DoosanPosx(MeshPoseToBase(w[i], worldBase), euler)
  {
    moves := [];
    for i := 0 to |w|
      invariant |moves| == i
      invariant forall j :: 0 <= j < i ==> moves[j] == DoosanPosx(MeshPoseToBase(w[j], worldBase), euler)
    {
      moves := moves + [DoosanPosx(MeshPoseToBase(w[i], worldBase), euler)];
    }
  }

  /** execute_trajectory; `moves` are the movel commands it issued. All or nothing: one unreachable
      waypoint and no command is issued, otherwise exactly one per waypoint, in order. */
  method ExecuteTrajectory(trajectory: seq<PoseObject>, worldBase: Pose, skip: nat, euler: Mat3 -> Vec3)
    returns (outcome: Execution, moves: seq<Posx>)
    requires skip >= 1
    ensures outcome == EmptyTrajectory <==> trajectory == []
    ensures trajectory != [] ==>
              var ix := WaypointIndexes(trajectory, skip);
              && (forall i :: 0 <= i < |ix| ==> ix[i] < |trajectory|)
              && var w := PosesAt(trajectory, ix);
                 && (outcome == Done <==> forall i :: 0 <= i < |w| ==> WaypointReachable(w[i], worldBase))
                 && (outcome.Unreachable? ==>
                       && outcome.waypoint < |w| && !WaypointReachable(w[outcome.waypoint], worldBase)
                       && forall i :: 0 <= i < outcome.waypoint ==> WaypointReachable(w[i], worldBase))
                 && (outcome == Done ==>
                       && |moves| == |w|
                       && forall i :: 0 <= i < |w| ==> moves[i] == DoosanPosx(MeshPoseToBase(w[i], worldBase), euler))
    ensures outcome != Done ==> moves == []
    ensures trajectory != [] && Rigid(worldBase) ==>
              var ix := WaypointIndexes(trajectory, skip);
              && (forall i :: 0 <= i < |ix| ==> ix[i] < |trajectory|)
              && var w := PosesAt(trajectory, ix);
                 && (outcome == Done <==> forall i :: 0 <= i < |w| ==> InReach(w[i], worldBase))
                 && (outcome == Done ==>
                       |moves| == |w| && forall i :: 0 <= i < |w| ==> CommandFor(moves[i], w[i], worldBase, euler))
  {
    moves := [];
    if trajectory == [] {
      return EmptyTrajectory, moves;
    }
    var ix := WaypointIndexes(trajectory, skip);
    WaypointsCover(trajectory, skip);
    var w := PosesAt(trajectory, ix);
    if Rigid(worldBase) { EachWaypoint(w, worldBase, euler); }
    outcome := PreFlight(w, worldBase);
    if outcome == Done {
      moves := SendMoves(w, worldBase, euler);
    }
  }
}

/** The exact geometry the propagator relies on: the intersection of a straight track
    with a plane, the unit normal of a plane given by three points, and the two planes
    that bound the dipole field region. */
module PropagatorGeometry {
  import opened Vectors

  /** `mag` is the Euclidean magnitude (TVector3::Mag): the non-negative number whose
      square is v.v. */
  ghost predicate IsMag(mag: Vec3 -> NonNegReal)
  {
    forall v :: mag(v) * mag(v) == Dot(v, v)
  }

  /** Three points spanning a plane, as the propagator's `v1, v2, v3` arguments and the
      `fPlane1[3]`/`fPlane2[3]` arrays. */
  datatype Triple = Triple(p0: Vec3, p1: Vec3, p2: Vec3)

  /** The outcome of LineIntersectPlane: whether the plane lies ahead along the track, and
      the value of the `intersect` out-argument afterwards. */
  datatype Crossing = Crossing(crossed: bool, intersect: Vec3)

  /** The point reached after moving `t` momentum lengths along the track. */
  function RayPoint(pos: Vec3, mom: Vec3, t: real): Vec3 { Add(pos, Scale(mom, t)) }

  /** LineIntersectPlane: the straight line from `pos` along `mom` meets the plane through
      `v1` with normal `normal` at a non-negative parameter. `intersect` is the caller's
      variable and is left as it was when there is no such crossing. */
  function LineIntersectPlane(pos: Vec3, mom: Vec3, v1: Vec3, normal: Vec3, intersect: Vec3): (r: Crossing)
    ensures Dot(mom, normal) == 0.0 ==> r == Crossing(false, intersect)
    ensures r.crossed <==> Dot(mom, normal) != 0.0 && Dot(Sub(v1, pos), normal) * Dot(mom, normal) >= 0.0
    ensures !r.crossed ==> r.intersect == intersect
    ensures r.crossed ==> Dot(Sub(r.intersect, v1), normal) == 0.0
  {
    var delta := Sub(v1, pos);
    var pn := Dot(mom, normal);
    if pn == 0.0 then Crossing(false, intersect)
    else
      var t := Dot(delta, normal) / pn;
      SignOfQuotient(Dot(delta, normal), pn);
      if t < 0.0 then Crossing(false, intersect)
      else
        DotAlongRay(pos, mom, v1, normal, t);
        Crossing(true, RayPoint(pos, mom, t))
  }

  /** a / b is non-negative exactly when a * b is. */
  lemma SignOfQuotient(a: real, b: real)
    requires b != 0.0
    ensures a / b >= 0.0 <==> a * b >= 0.0
    ensures (a / b) * b == a
  {
    var q := a / b;
    assert q * b == a;
    assert a * b == q * (b * b);
    assert b * b > 0.0;
  }

  /** The signed plane distance changes linearly along the track. */
  lemma DotAlongRay(pos: Vec3, mom: Vec3, v1: Vec3, normal: Vec3, t: real)
    ensures Dot(Sub(RayPoint(pos, mom, t), v1), normal)
         == t * Dot(mom, normal) - Dot(Sub(v1, pos), normal)
  {
  }

  /** Completeness: every point ahead on the track that lies on the plane is the one
      LineIntersectPlane reports, provided the track is not parallel to the plane. */
  lemma {:induction false} IntersectIsTheCrossingPoint(pos: Vec3, mom: Vec3, v1: Vec3, normal: Vec3,
                                                       intersect: Vec3, t: real)
    requires t >= 0.0 && Dot(mom, normal) != 0.0
    requires Dot(Sub(RayPoint(pos, mom, t), v1), normal) == 0.0
    ensures LineIntersectPlane(pos, mom, v1, normal, intersect) == Crossing(true, RayPoint(pos, mom, t))
  {
    var pn := Dot(mom, normal);
    var dn := Dot(Sub(v1, pos), normal);
    DotAlongRay(pos, mom, v1, normal, t);
    assert t * pn == dn;
    SignOfQuotient(dn, pn);
    assert dn / pn == t by {
      assert (dn / pn) * pn == t * pn;
      CancelFactor(dn / pn, t, pn);
    }
  }

  lemma CancelFactor(a: real, b: real, c: real)
    requires c != 0.0 && a * c == b * c
    ensures a == b
  {
    assert (a - b) * c == 0.0;
  }

  /** Only the direction of the normal matters, not its length or its sign: the backward
      propagation passes `-fNorm1`, `-fNorm2` and gets the same crossings. */
  lemma {:induction false} IntersectIgnoresNormalScale(pos: Vec3, mom: Vec3, v1: Vec3, normal: Vec3,
                                                       intersect: Vec3, k: real)
    requires k != 0.0
    ensures LineIntersectPlane(pos, mom, v1, Scale(normal, k), intersect)
         == LineIntersectPlane(pos, mom, v1, normal, intersect)
  {
    var pn := Dot(mom, normal);
    var dn := Dot(Sub(v1, pos), normal);
    var kn := Scale(normal, k);
    DotScale(mom, normal, k);
    DotScale(Sub(v1, pos), normal, k);
    assert (Dot(mom, kn) == 0.0) == (pn == 0.0);
    if pn != 0.0 {
      QuotientScale(dn, pn, k);
      assert Dot(Sub(v1, pos), kn) / Dot(mom, kn) == dn / pn;
    }
  }

  /** Scaling numerator and denominator by the same non-zero factor keeps a quotient. */
  lemma QuotientScale(a: real, b: real, k: real)
    requires b != 0.0 && k != 0.0
    ensures k * b != 0.0
    ensures (k * a) / (k * b) == a / b
  {
    SignOfQuotient(a, b);
    SignOfQuotient(k * a, k * b);
    assert (a / b) * (k * b) == k * ((a / b) * b);
    assert ((k * a) / (k * b)) * (k * b) == (a / b) * (k * b);
    CancelFactor((k * a) / (k * b), a / b, k * b);
  }

  lemma DotScale(a: Vec3, n: Vec3, k: real)
    ensures Dot(a, Scale(n, k)) == k * Dot(a, n)
  {
    assert a.x * (n.x * k) == k * (a.x * n.x);
    assert a.y * (n.y * k) == k * (a.y * n.y);
    assert a.z * (n.z * k) == k * (a.z * n.z);
  }

  lemma DotScaleSelf(a: Vec3, k: real)
    ensures Dot(Scale(a, k), Scale(a, k)) == k * k * Dot(a, a)
  {
    assert (a.x * k) * (a.x * k) == k * k * (a.x * a.x);
    assert (a.y * k) * (a.y * k) == k * k * (a.y * a.y);
    assert (a.z * k) * (a.z * k) == k * k * (a.z * a.z);
  }

  /** The on-plane test at the start of both propagation routines: the signed distance to
      the plane is below 1e-6 in magnitude. */
  predicate OnPlane(pos: Vec3, v1: Vec3, norm: Vec3)
  {
    Abs(Dot(Sub(pos, v1), norm)) < 0.000001
  }

  /** The unit normal `((v2 - v1) x (v3 - v1)).Unit()` of the plane through three points. */
  function PlaneNormal(t: Triple, mag: Vec3 -> NonNegReal): Vec3
  {
    Unit(Cross(Sub(t.p1, t.p0), Sub(t.p2, t.p0)), mag)
  }

  /** The triple with its last two points exchanged, as the backward routines pass them. */
  function Swapped(t: Triple): Triple { Triple(t.p0, t.p2, t.p1) }

  /** Two non-negative numbers with the same square are equal. */
  lemma SquareRootUnique(a: real, b: real)
    requires a >= 0.0 && b >= 0.0 && a * a == b * b
    ensures a == b
  {
    assert (a - b) * (a + b) == 0.0;
    if a + b == 0.0 {
    } else {
      CancelFactor(a - b, 0.0, a + b);
    }
  }

  /** The magnitude of -v is the magnitude of v. */
  lemma MagNeg(v: Vec3, mag: Vec3 -> NonNegReal)
    requires IsMag(mag)
    ensures mag(Neg(v)) == mag(v)
  {
    assert mag(Neg(v)) * mag(Neg(v)) == Dot(Neg(v), Neg(v)) == Dot(v, v) == mag(v) * mag(v);
    SquareRootUnique(mag(Neg(v)), mag(v));
  }

  /** The backward target normal `(v3 - v1) x (v2 - v1)` is the forward one negated. */
  lemma {:induction false} SwappedNormalIsNegated(t: Triple, mag: Vec3 -> NonNegReal)
    requires IsMag(mag)
    ensures PlaneNormal(Swapped(t), mag) == Neg(PlaneNormal(t, mag))
  {
    var c := Cross(Sub(t.p1, t.p0), Sub(t.p2, t.p0));
    assert Cross(Sub(t.p2, t.p0), Sub(t.p1, t.p0)) == Neg(c);
    MagNeg(c, mag);
  }

  /** A normal of a non-degenerate plane has length one and is perpendicular to both
      spanning vectors. */
  lemma {:induction false} PlaneNormalIsUnitAndPerpendicular(t: Triple, mag: Vec3 -> NonNegReal)
    requires IsMag(mag)
    requires mag(Cross(Sub(t.p1, t.p0), Sub(t.p2, t.p0))) > 0.0
    ensures Dot(PlaneNormal(t, mag), PlaneNormal(t, mag)) == 1.0
    ensures Dot(PlaneNormal(t, mag), Sub(t.p1, t.p0)) == 0.0
    ensures Dot(PlaneNormal(t, mag), Sub(t.p2, t.p0)) == 0.0
  {
    var a, b := Sub(t.p1, t.p0), Sub(t.p2, t.p0);
    var c := Cross(a, b);
    var m := mag(c);
    assert m * m == Dot(c, c);
    var k := 1.0 / m;
    assert Dot(Scale(c, k), Scale(c, k)) == k * k * Dot(c, c);
    assert k * k * (m * m) == (k * m) * (k * m);
    assert k * m == 1.0;
    assert Dot(c, a) == 0.0;
    assert Dot(c, b) == 0.0;
    assert Dot(Scale(c, k), a) == k * Dot(c, a);
    assert Dot(Scale(c, k), b) == k * Dot(c, b);
  }

  /** The field map's placement: the centre of the field box, the cosine and sine of its
      rotation about y, its half width and half height, and the z extent before rotation. */
  datatype FieldBox = FieldBox(center: Vec3, cosA: real, sinA: real,
                               xmax: real, ymax: real, zmin: real, zmax: real)

  /** TVector3::RotateY by the angle whose cosine and sine are `c` and `s`. */
  function RotateY(v: Vec3, c: real, s: real): Vec3
  {
    Vec3(s * v.z + c * v.x, v.y, c * v.z - s * v.x)
  }

  /** The three points of a boundary plane at depth z: the axis point and the two upper
      corners, rotated and then moved to the field centre. */
  function BoundaryPlane(f: FieldBox, z: real): Triple
  {
    Triple(Add(RotateY(Vec3(0.0, 0.0, z), f.cosA, f.sinA), f.center),
           Add(RotateY(Vec3(f.xmax, f.ymax, z), f.cosA, f.sinA), f.center),
           Add(RotateY(Vec3(-f.xmax, f.ymax, z), f.cosA, f.sinA), f.center))
  }

  /** The constructor's field boundaries: entrance plane, exit plane and their normals. */
  datatype Boundaries = Boundaries(plane1: Triple, plane2: Triple, norm1: Vec3, norm2: Vec3)

  function FieldBoundaries(f: FieldBox, mag: Vec3 -> NonNegReal): Boundaries
  {
    var p1 := BoundaryPlane(f, f.zmin);
    var p2 := BoundaryPlane(f, f.zmax);
    Boundaries(p1, p2, PlaneNormal(p1, mag), PlaneNormal(p2, mag))
  }

  /** The spanning vectors of a boundary plane do not depend on its depth. */
  lemma {:induction false} BoundarySpanIndependentOfDepth(f: FieldBox, z: real)
    ensures Sub(BoundaryPlane(f, z).p1, BoundaryPlane(f, z).p0)
         == Vec3(f.cosA * f.xmax, f.ymax, -(f.sinA * f.xmax))
    ensures Sub(BoundaryPlane(f, z).p2, BoundaryPlane(f, z).p0)
         == Vec3(-(f.cosA * f.xmax), f.ymax, f.sinA * f.xmax)
  {
    var c, s := f.cosA, f.sinA;
    assert s * z + c * f.xmax - (s * z + c * 0.0) == c * f.xmax;
    assert c * z - s * f.xmax - (c * z - s * 0.0) == -(s * f.xmax);
    assert s * z + c * -f.xmax - (s * z + c * 0.0) == -(c * f.xmax);
    assert c * z - s * -f.xmax - (c * z - s * 0.0) == s * f.xmax;
  }

  /** fNorm1 == fNorm2: the entrance and exit planes are parallel. */
  lemma {:induction false} BoundaryNormalsEqual(f: FieldBox, mag: Vec3 -> NonNegReal)
    ensures FieldBoundaries(f, mag).norm1 == FieldBoundaries(f, mag).norm2
  {
    BoundarySpanIndependentOfDepth(f, f.zmin);
    BoundarySpanIndependentOfDepth(f, f.zmax);
  }

  /** The rotated beam axis of the field: RotateY applied to (0, 0, 1). */
  function BeamAxis(f: FieldBox): Vec3 { Vec3(f.sinA, 0.0, f.cosA) }

  /** The cross product of a boundary plane's spanning vectors is the beam axis scaled by
      twice the box's half width times its half height. */
  lemma {:induction false} BoundaryCross(f: FieldBox, z: real)
    ensures Cross(Sub(BoundaryPlane(f, z).p1, BoundaryPlane(f, z).p0),
                  Sub(BoundaryPlane(f, z).p2, BoundaryPlane(f, z).p0))
         == Scale(BeamAxis(f), 2.0 * f.xmax * f.ymax)
  {
    var c, s, x, y := f.cosA, f.sinA, f.xmax, f.ymax;
    BoundarySpanIndependentOfDepth(f, z);
    var w := 2.0 * x * y;
    assert y * (s * x) - (-(s * x)) * y == s * w;
    assert (-(s * x)) * (-(c * x)) - (c * x) * (s * x) == 0.0;
    assert (c * x) * y - y * (-(c * x)) == c * w;
  }

  /** Normalising a positive multiple of a unit vector gives the unit vector back. */
  lemma UnitOfScaledUnit(u: Vec3, w: real, mag: Vec3 -> NonNegReal)
    requires IsMag(mag)
    requires Dot(u, u) == 1.0 && w > 0.0
    ensures Unit(Scale(u, w), mag) == u
  {
    var v := Scale(u, w);
    DotScaleSelf(u, w);
    assert Dot(v, v) == w * w;
    assert mag(v) * mag(v) == Dot(v, v);
    SquareRootUnique(mag(v), w);
    assert (u.x * w) * (1.0 / w) == u.x;
    assert (u.y * w) * (1.0 / w) == u.y;
    assert (u.z * w) * (1.0 / w) == u.z;
  }

  /** For a proper rotation and a box of positive width and height, both boundary normals
      are the rotated beam axis (sin, 0, cos). */
  lemma {:induction false} BoundaryNormalIsBeamAxis(f: FieldBox, mag: Vec3 -> NonNegReal)
    requires IsMag(mag)
    requires f.cosA * f.cosA + f.sinA * f.sinA == 1.0
    requires f.xmax > 0.0 && f.ymax > 0.0
    ensures FieldBoundaries(f, mag).norm1 == BeamAxis(f)
    ensures FieldBoundaries(f, mag).norm2 == BeamAxis(f)
  {
    BoundaryNormalsEqual(f, mag);
    BoundaryCross(f, f.zmin);
    assert Dot(BeamAxis(f), BeamAxis(f)) == 1.0;
    assert 2.0 * f.xmax * f.ymax > 0.0;
    UnitOfScaledUnit(BeamAxis(f), 2.0 * f.xmax * f.ymax, mag);
  }

  /** The exit plane lies zmax - zmin beyond the entrance plane along the beam axis. */
  lemma {:induction false} BoundaryDepth(f: FieldBox, mag: Vec3 -> NonNegReal)
    ensures Sub(FieldBoundaries(f, mag).plane2.p0, FieldBoundaries(f, mag).plane1.p0)
         == Scale(BeamAxis(f), f.zmax - f.zmin)
  {
    var c, s, d := f.cosA, f.sinA, f.zmax - f.zmin;
    assert s * f.zmax + c * 0.0 - (s * f.zmin + c * 0.0) == s * d;
    assert c * f.zmax - s * 0.0 - (c * f.zmin - s * 0.0) == c * d;
  }
}

/** Where the HSV cone places a colour (`hsvToCartesian` in
    src/components/ThreeJS/HSVCone.tsx): value is height above a tip lowered by 0.2,
    saturation times value is the distance from the axis, and hue turns clockwise from
    -30 degrees. Cosine, sine and pi are supplied by the caller. */
module HsvCone {
  import opened Scene

  const ConeRadius := 0.62
  const CenterX := 0.5
  const CenterZ := 0.5
  const YPosBottom := 0.0
  const YPosTop := 1.0
  const YOffset := -0.2

  /** The hue's direction in radians. */
  function Angle(h: real, pi: real): (a: real)
    ensures pi > 0.0 && 0.0 <= h <= 1.0 ==> -2.0 * pi - pi / 6.0 <= a <= -(pi / 6.0)
  {
    -h * 2.0 * pi - pi / 6.0
  }

  /** The height: value, lowered by 0.2. */
  function Height(v: real): (y: real)
    ensures y == v - 0.2
    ensures 0.0 <= v <= 1.0 ==> -0.2 <= y <= 0.8
  {
    YPosBottom + YOffset + (YPosTop - YPosBottom) * v
  }

  /** The distance from the cone's axis. */
  function Radius(s: real, v: real): (r: real)
    ensures 0.0 <= s <= 1.0 && 0.0 <= v <= 1.0 ==> 0.0 <= r <= ConeRadius
    ensures s == 0.0 || v == 0.0 ==> r == 0.0
  {
    assert 0.0 <= s <= 1.0 && 0.0 <= v <= 1.0 ==> 0.0 <= s * v <= v;
    ConeRadius * s * v
  }

  /** `hsvToCartesian(h, s, v)`. */
  function HsvToCartesian(h: real, s: real, v: real, pi: real, cos: real -> real, sin: real -> real): (p: Vec3)
    ensures p.y == v - 0.2
  {
    var angle := Angle(h, pi);
    var radius := Radius(s, v);
    Vec3(CenterX + radius * cos(angle), Height(v), CenterZ + radius * sin(angle))
  }

  /** The angle is affine in hue: a full turn per unit of hue, clockwise, from -pi/6. */
  lemma AngleAffine(h1: real, h2: real, pi: real)
    ensures Angle(h1, pi) - Angle(h2, pi) == -2.0 * pi * (h1 - h2)
    ensures Angle(0.0, pi) == -(pi / 6.0)
    ensures Angle(1.0, pi) == Angle(0.0, pi) - 2.0 * pi
  {
  }

  /** For a fixed non-negative saturation, brighter colours lie no closer to the axis. */
  lemma {:induction false} RadiusGrowsWithValue(s: real, v1: real, v2: real)
    requires s >= 0.0 && v1 <= v2
    ensures Radius(s, v1) <= Radius(s, v2)
  {
    assert ConeRadius * s >= 0.0;
    assert ConeRadius * s * (v2 - v1) >= 0.0;
  }

  /** Black (value 0) is the cone's tip and every grey lies on the axis, whatever the hue. */
  lemma GreysOnAxis(h: real, s: real, v: real, pi: real, cos: real -> real, sin: real -> real)
    requires s == 0.0 || v == 0.0
    ensures HsvToCartesian(h, s, v, pi, cos, sin) == Vec3(CenterX, v - 0.2, CenterZ)
    ensures v == 0.0 ==> HsvToCartesian(h, s, v, pi, cos, sin) == Vec3(0.5, -0.2, 0.5)
  {
  }

  /** With a true cosine and sine (cos^2 + sin^2 = 1 at the hue's angle), the point lies on
      the circle of the radius around the axis. */
  lemma OnRadiusCircle(h: real, s: real, v: real, pi: real, cos: real -> real, sin: real -> real)
    requires var a := Angle(h, pi); cos(a) * cos(a) + sin(a) * sin(a) == 1.0
    ensures var p := HsvToCartesian(h, s, v, pi, cos, sin);
      (p.x - CenterX) * (p.x - CenterX) + (p.z - CenterZ) * (p.z - CenterZ) == Radius(s, v) * Radius(s, v)
  {
    var a := Angle(h, pi);
    var r := Radius(s, v);
    calc {
      (r * cos(a)) * (r * cos(a)) + (r * sin(a)) * (r * sin(a));
      r * r * (cos(a) * cos(a) + sin(a) * sin(a));
      r * r;
    }
  }
}

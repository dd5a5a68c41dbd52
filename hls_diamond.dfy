/** Where the HLS double cone places a colour (`hlsToCartesian` in
    src/components/ThreeJS/HLSDiamond.tsx): lightness is height, saturation is scaled down
    toward the black and white tips, and hue is turned so that red points along -z.
    Cosine, sine and pi are supplied by the caller. */
module HlsDiamond {
  import opened Scene

  const ConeRadius := 0.62
  const CenterX := 0.5
  const CenterZ := 0.5
  const YPosTop := 1.0
  const YPosBottom := 0.0

  /** The hue's direction in degrees: 270 minus the hue in degrees. */
  function AngleDegrees(h: real): (deg: real)
    ensures 0.0 <= h <= 1.0 ==> -90.0 <= deg <= 270.0
  {
    270.0 - h * 360.0
  }

  /** The height: lightness spread from the bottom tip to the top tip. */
  function Height(l: real): (y: real)
    ensures y == l
    ensures 0.0 <= l <= 1.0 ==> YPosBottom <= y <= YPosTop
  {
    YPosBottom + (YPosTop - YPosBottom) * l
  }

  /** `effectiveS`: saturation scaled by how far lightness is from the tips. */
  function EffectiveSaturation(l: real, s: real): (e: real)
    ensures 0.0 <= l <= 1.0 && s >= 0.0 ==> 0.0 <= e <= s
    ensures l == 0.0 || l == 1.0 || s == 0.0 ==> e == 0.0
  {
    s * (1.0 - Abs(l - 0.5) * 2.0)
  }

  /** The distance from the cone's axis. */
  function Radius(l: real, s: real): (r: real)
    ensures 0.0 <= l <= 1.0 && 0.0 <= s <= 1.0 ==> 0.0 <= r <= ConeRadius
    ensures l == 0.0 || l == 1.0 || s == 0.0 ==> r == 0.0
  {
    ConeRadius * EffectiveSaturation(l, s)
  }

  /** `hlsToCartesian(h, l, s)`. */
  function HlsToCartesian(h: real, l: real, s: real, pi: real, cos: real -> real, sin: real -> real): (p: Vec3)
    ensures p.y == l
  {
    var angle := AngleDegrees(h) * (pi / 180.0);
    var radius := Radius(l, s);
    Vec3(CenterX + radius * cos(angle), Height(l), CenterZ + radius * sin(angle))
  }

  /** The hue turns clockwise at 360 degrees per unit of hue: red sits at 270 degrees,
      yellow at 210, green at 150, cyan at 90, blue at 30 and magenta at -30. */
  lemma HueDirections(h1: real, h2: real)
    ensures AngleDegrees(h1) - AngleDegrees(h2) == 360.0 * (h2 - h1)
    ensures AngleDegrees(0.0) == 270.0 && AngleDegrees(60.0 / 360.0) == 210.0
    ensures AngleDegrees(120.0 / 360.0) == 150.0 && AngleDegrees(180.0 / 360.0) == 90.0
    ensures AngleDegrees(240.0 / 360.0) == 30.0 && AngleDegrees(300.0 / 360.0) == -30.0
  {
  }

  /** The radius is the same at lightness l and 1 - l and is widest, 0.62 times the
      saturation, at the middle plane l = 0.5. */
  lemma RadiusSymmetricAndWidestAtMiddle(l: real, s: real)
    ensures Radius(l, s) == Radius(1.0 - l, s)
    ensures Radius(0.5, s) == ConeRadius * s
    ensures s >= 0.0 ==> Radius(l, s) <= Radius(0.5, s)
  {
    assert Abs((1.0 - l) - 0.5) == Abs(l - 0.5);
    if s >= 0.0 {
      assert s * (Abs(l - 0.5) * 2.0) >= 0.0;
    }
  }

  /** Both tips and every grey lie on the axis, whatever the hue. */
  lemma GreysOnAxis(h: real, l: real, s: real, pi: real, cos: real -> real, sin: real -> real)
    requires l == 0.0 || l == 1.0 || s == 0.0
    ensures HlsToCartesian(h, l, s, pi, cos, sin) == Vec3(CenterX, l, CenterZ)
  {
  }

  /** With a true cosine and sine (cos^2 + sin^2 = 1 at the hue's angle), the point lies on
      the circle of the radius around the axis. */
  lemma OnRadiusCircle(h: real, l: real, s: real, pi: real, cos: real -> real, sin: real -> real)
    requires var a := AngleDegrees(h) * (pi / 180.0); cos(a) * cos(a) + sin(a) * sin(a) == 1.0
    ensures var p := HlsToCartesian(h, l, s, pi, cos, sin);
      (p.x - CenterX) * (p.x - CenterX) + (p.z - CenterZ) * (p.z - CenterZ) == Radius(l, s) * Radius(l, s)
  {
    var a := AngleDegrees(h) * (pi / 180.0);
    var r := Radius(l, s);
    calc {
      (r * cos(a)) * (r * cos(a)) + (r * sin(a)) * (r * sin(a));
      r * r * (cos(a) * cos(a) + sin(a) * sin(a));
      r * r;
    }
  }
}

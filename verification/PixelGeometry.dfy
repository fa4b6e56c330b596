/** Logical window bounds to native pixels (scripts/atspi_window_probe.py: `_scale`,
    `_resolve_calibration`, `native_region`). Floor and ceiling are exact. */
module PixelGeometry {
  import opened RealOrder
  import opened Wrappers

  /** Right and bottom exclusive. */
  datatype CropBox = CropBox(left: int, top: int, right: int, bottom: int)

  datatype Geometry = Geometry(x: int, y: int, width: int, height: int, num: int, den: int) {
    predicate Valid() {
      x >= 0 && y >= 0 && width > 0 && height > 0 && num > 0 && den > 0
    }

    function Crop(): CropBox {
      CropBox(x, y, x + width, y + height)
    }
  }

  datatype Calibration = Calibration(x: int, y: int)

  datatype Rect = Rect(x: int, y: int, width: int, height: int)

  function ScaleFloor(v: int, num: int, den: int): int
    requires den > 0
  {
    v * num / den
  }

  function ScaleCeil(v: int, num: int, den: int): int
    requires den > 0
  {
    -((-(v * num)) / den)
  }

  /** The exact native coordinate. */
  function Exact(v: int, num: int, den: int): real
    requires den > 0
  {
    (v * num) as real / den as real
  }

  lemma FloorBounds(a: int, den: int)
    requires den > 0
    ensures (a / den) * den <= a < (a / den) * den + den
  {
    assert a == (a / den) * den + a % den;
  }

  lemma QuotientBounds(q: int, a: int, den: int)
    requires den > 0 && q * den <= a < q * den + den
    ensures q as real <= a as real / den as real < q as real + 1.0
  {
    CastProduct(q, den);
    CastProduct(q + 1, den);
    DivideBelow(q as real, a as real, den as real);
    DivideAbove((q + 1) as real, a as real, den as real);
  }

  lemma CastProduct(q: int, den: int)
    ensures (q as real) * (den as real) == (q * den) as real
  {
  }

  lemma DivideBelow(x: real, m: real, d: real)
    requires d > 0.0 && x * d <= m
    ensures x <= m / d
  {
    var e := m / d;
    assert e * d == m;
    if e < x {
      ScaledStrictly(d, e, x);
    }
  }

  lemma DivideAbove(x: real, m: real, d: real)
    requires d > 0.0 && m < x * d
    ensures m / d < x
  {
    var e := m / d;
    assert e * d == m;
    if x <= e {
      ScaledOrder(d, x, e);
    }
  }

  /** Both roundings stay within one pixel of the exact coordinate. */
  lemma ScaleIsTight(v: int, num: int, den: int)
    requires den > 0
    ensures ScaleFloor(v, num, den) as real <= Exact(v, num, den) < ScaleFloor(v, num, den) as real + 1.0
    ensures ScaleCeil(v, num, den) as real - 1.0 < Exact(v, num, den) <= ScaleCeil(v, num, den) as real
    ensures ScaleFloor(v, num, den) <= ScaleCeil(v, num, den) <= ScaleFloor(v, num, den) + 1
  {
    var a := v * num;
    FloorBounds(a, den);
    QuotientBounds(a / den, a, den);
    FloorBounds(-a, den);
    QuotientBounds((-a) / den, -a, den);
    NegatedQuotient(a, den);
  }

  /** The roundings in integers: floor is the greatest whole number of native pixels below, ceiling the least above. */
  lemma ScaleMeans(v: int, num: int, den: int)
    requires den > 0
    ensures ScaleFloor(v, num, den) * den <= v * num < (ScaleFloor(v, num, den) + 1) * den
    ensures (ScaleCeil(v, num, den) - 1) * den < v * num <= ScaleCeil(v, num, den) * den
    ensures Exact(v, num, den) * (den as real) == (v * num) as real
  {
    FloorBounds(v * num, den);
    FloorBounds(-(v * num), den);
    Distributed(ScaleFloor(v, num, den), den);
    Distributed((-(v * num)) / den, den);
    CancelDivision((v * num) as real, den as real);
  }

  lemma Distributed(q: int, den: int)
    ensures (q + 1) * den == q * den + den
    ensures (-q) * den == -(q * den) && (-q - 1) * den == -(q * den) - den
  {
  }

  lemma CancelDivision(m: real, d: real)
    requires d > 0.0
    ensures m / d * d == m
  {
  }

  lemma NegatedQuotient(a: int, den: int)
    requires den > 0
    ensures (-a) as real / den as real == -(a as real / den as real)
  {
    var e, f := a as real / den as real, (-a) as real / den as real;
    assert e * (den as real) == a as real && f * (den as real) == (-a) as real;
    assert (e + f) * (den as real) == 0.0;
    ZeroFactor(e + f, den as real);
  }

  lemma ZeroFactor(c: real, u: real)
    requires u > 0.0 && c * u == 0.0
    ensures c == 0.0
  {
  }

  lemma ScaleIsMonotone(v: int, w: int, num: int, den: int)
    requires num > 0 && den > 0 && v <= w
    ensures ScaleFloor(v, num, den) <= ScaleFloor(w, num, den)
    ensures ScaleCeil(v, num, den) <= ScaleCeil(w, num, den)
  {
    var a, b := v * num, w * num;
    ScaledInt(num, v, w);
    DivMonotone(a, b, den);
    DivMonotone(-b, -a, den);
  }

  lemma ScaledInt(c: int, x: int, y: int)
    requires c >= 0 && x <= y
    ensures x * c <= y * c
  {
  }

  lemma DivMonotone(a: int, b: int, den: int)
    requires den > 0 && a <= b
    ensures a / den <= b / den
  {
    FloorBounds(a, den);
    FloorBounds(b, den);
    if a / den > b / den {
      ScaledInt(den, b / den + 1, a / den);
      assert false;
    }
  }

  // ----- calibration --------------------------------------------------------------------------------

  function ResolveCalibration(g: Geometry, given: Option<Calibration>): Option<Calibration>
    requires g.Valid()
  {
    if given.Some? then
      if ScaleFloor(given.value.x, g.num, g.den) != g.x || ScaleFloor(given.value.y, g.num, g.den) != g.y
        then None else given
    else if (g.x * g.den) % g.num != 0 || (g.y * g.den) % g.num != 0 then None
    else Some(Calibration(g.x * g.den / g.num, g.y * g.den / g.num))
  }

  /** Given or derived, an accepted origin scales back to the window's native corner. */
  lemma CalibrationAgrees(g: Geometry, given: Option<Calibration>)
    requires g.Valid() && ResolveCalibration(g, given).Some?
    ensures var c := ResolveCalibration(g, given).value;
      ScaleFloor(c.x, g.num, g.den) == g.x && ScaleFloor(c.y, g.num, g.den) == g.y
    ensures given.None? ==> var c := ResolveCalibration(g, given).value;
      ScaleCeil(c.x, g.num, g.den) == g.x && ScaleCeil(c.y, g.num, g.den) == g.y
  {
    if given.None? {
      ExactRoundTrip(g.x, g.num, g.den);
      ExactRoundTrip(g.y, g.num, g.den);
    }
  }

  /** Which origins are accepted: a given one exactly when it scales down to the window's corner, and without
      one exactly when the corner is a whole number of logical pixels. */
  lemma CalibrationExistsExactly(g: Geometry, given: Option<Calibration>)
    requires g.Valid()
    ensures given.Some? ==>
      (ResolveCalibration(g, given).Some? <==>
         ScaleFloor(given.value.x, g.num, g.den) == g.x && ScaleFloor(given.value.y, g.num, g.den) == g.y)
    ensures given.Some? && ResolveCalibration(g, given).Some? ==> ResolveCalibration(g, given) == given
    ensures given.None? ==>
      (ResolveCalibration(g, given).Some? <==> (g.x * g.den) % g.num == 0 && (g.y * g.den) % g.num == 0)
    ensures given.None? && ResolveCalibration(g, given).Some? ==>
      var c := ResolveCalibration(g, given).value;
      c.x * g.num == g.x * g.den && c.y * g.num == g.y * g.den
  {
    if given.None? && ResolveCalibration(g, given).Some? {
      ExactQuotient(g.x * g.den, g.num);
      ExactQuotient(g.y * g.den, g.num);
    }
  }

  lemma ExactQuotient(a: int, n: int)
    requires n > 0 && a % n == 0
    ensures a / n * n == a
  {
  }

  lemma ExactRoundTrip(x: int, num: int, den: int)
    requires num > 0 && den > 0 && (x * den) % num == 0
    ensures ScaleFloor(x * den / num, num, den) == x && ScaleCeil(x * den / num, num, den) == x
  {
    var c := x * den / num;
    assert c * num == x * den;
    MultipleDivides(x, den);
    MultipleDivides(-x, den);
    assert (-x) * den == -(x * den);
  }

  lemma MultipleDivides(x: int, den: int)
    requires den > 0
    ensures x * den / den == x
  {
    FloorBounds(x * den, den);
    var q := x * den / den;
    assert (q - x) * den <= 0 && (q - x) * den > -den;
    if q > x { ScaledInt(den, 1, q - x); }
    if q < x { ScaledInt(den, q - x, -1); }
  }

  // ----- regions ------------------------------------------------------------------------------------

  function Max(a: int, b: int): int { if a >= b then a else b }
  function Min(a: int, b: int): int { if a <= b then a else b }

  /** None where the source raises `bounds_unresolvable` or rejects the calibration. */
  function NativeRegion(r: Rect, g: Geometry, given: Option<Calibration>): Option<CropBox>
    requires g.Valid()
  {
    if r.width <= 0 || r.height <= 0 then None
    else
      var c := ResolveCalibration(g, given);
      if c.None? then None
      else
        var box := Clipped(r, g, c.value);
        if box.right <= box.left || box.bottom <= box.top then None else Some(box)
  }

  function Clipped(r: Rect, g: Geometry, c: Calibration): CropBox
    requires g.Valid()
  {
    CropBox(Max(g.Crop().left, ScaleFloor(c.x + r.x, g.num, g.den)),
            Max(g.Crop().top, ScaleFloor(c.y + r.y, g.num, g.den)),
            Min(g.Crop().right, ScaleCeil(c.x + r.x + r.width, g.num, g.den)),
            Min(g.Crop().bottom, ScaleCeil(c.y + r.y + r.height, g.num, g.den)))
  }

  function RMax(a: real, b: real): real { if a >= b then a else b }
  function RMin(a: real, b: real): real { if a <= b then a else b }

  /** An accepted region is nonempty, lies inside the crop, covers the exact rectangle as far as the
      crop shows it, and exceeds it by less than one native pixel on each side. */
  lemma RegionCoversTightly(r: Rect, g: Geometry, given: Option<Calibration>)
    requires g.Valid() && NativeRegion(r, g, given).Some?
    ensures var box := NativeRegion(r, g, given).value;
      && g.x <= box.left < box.right <= g.x + g.width && g.y <= box.top < box.bottom <= g.y + g.height
    ensures var box, c, crop := NativeRegion(r, g, given).value, ResolveCalibration(g, given).value, g.Crop();
      && crop.left <= box.left < box.right <= crop.right
      && crop.top <= box.top < box.bottom <= crop.bottom
      && box.left as real <= RMax(crop.left as real, Exact(c.x + r.x, g.num, g.den)) < box.left as real + 1.0
      && box.top as real <= RMax(crop.top as real, Exact(c.y + r.y, g.num, g.den)) < box.top as real + 1.0
      && (var end := RMin(crop.right as real, Exact(c.x + r.x + r.width, g.num, g.den));
          box.right as real - 1.0 < end <= box.right as real)
      && (var end := RMin(crop.bottom as real, Exact(c.y + r.y + r.height, g.num, g.den));
          box.bottom as real - 1.0 < end <= box.bottom as real)
  {
    var c := ResolveCalibration(g, given).value;
    ScaleIsTight(c.x + r.x, g.num, g.den);
    ScaleIsTight(c.y + r.y, g.num, g.den);
    ScaleIsTight(c.x + r.x + r.width, g.num, g.den);
    ScaleIsTight(c.y + r.y + r.height, g.num, g.den);
  }

  lemma ExactIsStrict(v: int, w: int, num: int, den: int)
    requires num > 0 && den > 0 && v < w
    ensures Exact(v, num, den) < Exact(w, num, den)
  {
    var e, f, d := Exact(v, num, den), Exact(w, num, den), den as real;
    assert e * d == (v * num) as real && f * d == (w * num) as real;
    ScaledInt(num, v + 1, w);
    if f <= e {
      ScaledOrder(d, f, e);
      assert false;
    }
  }

  /** One axis: the rounded interval and the crop share a pixel exactly when the exact interval
      reaches into the crop. */
  lemma AxisShows(low: int, high: int, from: int, to: int, num: int, den: int)
    requires num > 0 && den > 0 && low < high && from < to
    ensures Max(low, ScaleFloor(from, num, den)) < Min(high, ScaleCeil(to, num, den)) <==>
      Exact(from, num, den) < high as real && low as real < Exact(to, num, den)
  {
    ScaleIsTight(from, num, den);
    ScaleIsTight(to, num, den);
    ExactIsStrict(from, to, num, den);
  }

  /** A calibrated rectangle is refused exactly when none of it shows inside the crop. */
  lemma RegionExistsExactly(r: Rect, g: Geometry, given: Option<Calibration>)
    requires g.Valid() && r.width > 0 && r.height > 0 && ResolveCalibration(g, given).Some?
    ensures var c, crop := ResolveCalibration(g, given).value, g.Crop();
      NativeRegion(r, g, given).Some? <==>
        && Exact(c.x + r.x, g.num, g.den) < crop.right as real
        && crop.left as real < Exact(c.x + r.x + r.width, g.num, g.den)
        && Exact(c.y + r.y, g.num, g.den) < crop.bottom as real
        && crop.top as real < Exact(c.y + r.y + r.height, g.num, g.den)
  {
    var c, crop := ResolveCalibration(g, given).value, g.Crop();
    AxisShows(crop.left, crop.right, c.x + r.x, c.x + r.x + r.width, g.num, g.den);
    AxisShows(crop.top, crop.bottom, c.y + r.y, c.y + r.y + r.height, g.num, g.den);
  }

  /** Empty rectangles and windows without an accepted origin have no region. */
  lemma RegionNeeds(r: Rect, g: Geometry, given: Option<Calibration>)
    requires g.Valid()
    ensures NativeRegion(r, g, given).Some? ==>
      r.width > 0 && r.height > 0 && ResolveCalibration(g, given).Some?
  {
  }

  predicate Inside(r: Rect, s: Rect) {
    && s.x <= r.x && r.x + r.width <= s.x + s.width
    && s.y <= r.y && r.y + r.height <= s.y + s.height
  }

  predicate BoxInside(a: CropBox, b: CropBox) {
    b.left <= a.left && a.right <= b.right && b.top <= a.top && a.bottom <= b.bottom
  }

  /** Scaling keeps inclusion, and a rectangle around an accepted one is accepted. */
  lemma RegionKeepsInclusion(r: Rect, s: Rect, g: Geometry, given: Option<Calibration>)
    requires g.Valid() && Inside(r, s) && NativeRegion(r, g, given).Some?
    ensures NativeRegion(s, g, given).Some?
    ensures BoxInside(NativeRegion(r, g, given).value, NativeRegion(s, g, given).value)
  {
    var c := ResolveCalibration(g, given).value;
    ScaleIsMonotone(c.x + s.x, c.x + r.x, g.num, g.den);
    ScaleIsMonotone(c.y + s.y, c.y + r.y, g.num, g.den);
    ScaleIsMonotone(c.x + r.x + r.width, c.x + s.x + s.width, g.num, g.den);
    ScaleIsMonotone(c.y + r.y + r.height, c.y + s.y + s.height, g.num, g.den);
  }

  /** Two rectangles that share a vertical edge: their regions meet without a gap and overlap by at
      most one column. */
  lemma NeighboursMeet(r: Rect, s: Rect, g: Geometry, given: Option<Calibration>)
    requires g.Valid() && s.x == r.x + r.width
    requires NativeRegion(r, g, given).Some? && NativeRegion(s, g, given).Some?
    ensures var a, b := NativeRegion(r, g, given).value, NativeRegion(s, g, given).value;
      0 <= a.right - b.left <= 1
  {
    var c := ResolveCalibration(g, given).value;
    ScaleIsTight(c.x + s.x, g.num, g.den);
  }

  /** The same for a shared horizontal edge. */
  lemma StackedMeet(r: Rect, s: Rect, g: Geometry, given: Option<Calibration>)
    requires g.Valid() && s.y == r.y + r.height
    requires NativeRegion(r, g, given).Some? && NativeRegion(s, g, given).Some?
    ensures var a, b := NativeRegion(r, g, given).value, NativeRegion(s, g, given).value;
      0 <= a.bottom - b.top <= 1
  {
    var c := ResolveCalibration(g, given).value;
    ScaleIsTight(c.y + s.y, g.num, g.den);
  }
}

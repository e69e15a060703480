/**
 Window geometry of the dashboard verifier: the mapping of Qt's logical rectangles to X11 pixels, and
 the oracle for the split of the screen between the simulator's and the dashboard's windows.
 */
module WindowLayout {
  import opened Basics

  datatype Rect = Rect(x: int, y: int, width: int, height: int) {
    function Right(): int {
      x + width
    }

    function Bottom(): int {
      y + height
    }
  }

  /** The source's rectangles have positive size; building any other raises. */
  predicate ValidRect(r: Rect) {
    r.width > 0 && r.height > 0
  }

  predicate Inside(inner: Rect, outer: Rect) {
    inner.x >= outer.x && inner.y >= outer.y && inner.Right() <= outer.Right() && inner.Bottom() <= outer.Bottom()
  }

  predicate Overlap(a: Rect, b: Rect) {
    Max(a.x, b.x) < Min(a.Right(), b.Right()) && Max(a.y, b.y) < Min(a.Bottom(), b.Bottom())
  }

  // ----- logical to physical pixels -----

  datatype GeometryError = SizeMismatch | EmptyRect

  /** One pixel, or the next whole number of pixels from the scale on. */
  function Tolerance(scale: real): (t: int)
    ensures t >= 1 && t as real >= scale && (t == 1 || (t - 1) as real < scale)
  {
    Max(1, Ceil(scale))
  }

  function Scaled(length: int, scale: real): real {
    length as real * scale
  }

  /** A logical length in physical pixels, rounded half to even. */
  function Pixels(length: int, scale: real): int {
    RoundReal(Scaled(length, scale))
  }

  /** The window's logical size agrees with the client area at this scale. */
  predicate SizesAgree(window: Rect, client: Rect, scale: real) {
    && -Tolerance(scale) <= Pixels(window.width, scale) - client.width <= Tolerance(scale)
    && -Tolerance(scale) <= Pixels(window.height, scale) - client.height <= Tolerance(scale)
  }

  function Pixel(anchor: int, logical: int, origin: int, scale: real): int {
    anchor + Pixels(logical - origin, scale)
  }

  /** The mapped rectangle, whatever its size. */
  function Mapped(window: Rect, client: Rect, scale: real, r: Rect): Rect {
    var left, top := Pixel(client.x, r.x, window.x, scale), Pixel(client.y, r.y, window.y, scale);
    var right, bottom := Pixel(client.x, r.Right(), window.x, scale), Pixel(client.y, r.Bottom(), window.y, scale);
    Rect(left, top, right - left, bottom - top)
  }

  function RectToX11(window: Rect, client: Rect, scale: real, r: Rect): Result<Rect, GeometryError> {
    if !SizesAgree(window, client, scale) then Err(SizeMismatch)
    else if !ValidRect(Mapped(window, client, scale, r)) then Err(EmptyRect)
    else Ok(Mapped(window, client, scale, r))
  }

  /** A rectangle is mapped exactly if both client sizes are within the tolerance and the result is not empty. */
  lemma MappedExactly(window: Rect, client: Rect, scale: real, r: Rect)
    ensures var result, t := RectToX11(window, client, scale, r), Tolerance(scale);
            var width, height := Pixels(window.width, scale), Pixels(window.height, scale);
            var agree := && client.width - t <= width <= client.width + t
                         && client.height - t <= height <= client.height + t;
            var m := Mapped(window, client, scale, r);
            && (result == Err(SizeMismatch) <==> !agree)
            && (result == Err(EmptyRect) <==> agree && (m.width <= 0 || m.height <= 0))
            && (result.Ok? ==> result.value == m)
  {
    hide Pixels, Tolerance, Mapped;
  }

  lemma RoundMonotone(x: real, y: real)
    requires x <= y
    ensures RoundReal(x) <= RoundReal(y)
  {
    var a, b := x.Floor, y.Floor;
    if a < b {
      assert RoundReal(x) <= a + 1 <= b <= RoundReal(y);
    }
  }

  lemma PixelMonotone(anchor: int, a: int, b: int, origin: int, scale: real)
    requires scale > 0.0 && a <= b
    ensures Pixel(anchor, a, origin, scale) <= Pixel(anchor, b, origin, scale)
  {
    hide Pixels;
    PixelsMonotone(a - origin, b - origin, scale);
  }

  lemma PixelsMonotone(a: int, b: int, scale: real)
    requires scale > 0.0 && a <= b
    ensures Pixels(a, scale) <= Pixels(b, scale)
  {
    hide RoundReal, Scaled;
    ScaledOrder(a, b, scale);
    RoundMonotone(Scaled(a, scale), Scaled(b, scale));
  }

  lemma ScaledOrder(a: int, b: int, scale: real)
    requires scale > 0.0 && a <= b
    ensures Scaled(a, scale) <= Scaled(b, scale)
  {
    ProductOrder(a as real, b as real, scale);
  }

  lemma ProductOrder(a: real, b: real, c: real)
    requires a <= b && c > 0.0
    ensures a * c <= b * c
  {
  }

  /** Mapping keeps containment, for every positive scale. */
  lemma MappingKeepsContainment(window: Rect, client: Rect, scale: real, inner: Rect, outer: Rect)
    requires scale > 0.0 && Inside(inner, outer)
    ensures Inside(Mapped(window, client, scale, inner), Mapped(window, client, scale, outer))
    ensures var a, b := RectToX11(window, client, scale, inner), RectToX11(window, client, scale, outer);
            a.Ok? ==> b.Ok? && Inside(a.value, b.value)
  {
    hide Pixel;
    PixelMonotone(client.x, outer.x, inner.x, window.x, scale);
    PixelMonotone(client.y, outer.y, inner.y, window.y, scale);
    PixelMonotone(client.x, inner.Right(), outer.Right(), window.x, scale);
    PixelMonotone(client.y, inner.Bottom(), outer.Bottom(), window.y, scale);
  }

  /** Mapping keeps separation: rectangles without a common area stay so. */
  lemma MappingKeepsSeparation(window: Rect, client: Rect, scale: real, a: Rect, b: Rect)
    requires scale > 0.0 && ValidRect(a) && ValidRect(b) && !Overlap(a, b)
    ensures !Overlap(Mapped(window, client, scale, a), Mapped(window, client, scale, b))
    ensures var x, y := RectToX11(window, client, scale, a), RectToX11(window, client, scale, b);
            x.Ok? && y.Ok? ==> !Overlap(x.value, y.value)
  {
    hide Pixel;
    if a.Right() <= b.x {
      PixelMonotone(client.x, a.Right(), b.x, window.x, scale);
    } else if b.Right() <= a.x {
      PixelMonotone(client.x, b.Right(), a.x, window.x, scale);
    } else if a.Bottom() <= b.y {
      PixelMonotone(client.y, a.Bottom(), b.y, window.y, scale);
    } else {
      PixelMonotone(client.y, b.Bottom(), a.y, window.y, scale);
    }
  }

  /** The window itself is mapped to the client's corner, within the tolerance of its size. */
  lemma WindowMapsToClient(window: Rect, client: Rect, scale: real)
    requires scale > 0.0 && SizesAgree(window, client, scale)
    ensures var m := Mapped(window, client, scale, window);
            && m.x == client.x && m.y == client.y
            && -Tolerance(scale) <= m.width - client.width <= Tolerance(scale)
            && -Tolerance(scale) <= m.height - client.height <= Tolerance(scale)
  {
    hide Pixels, Tolerance;
    NoPixels(scale);
  }

  /** No edge of a mapped rectangle is more than half a pixel from its exact place. */
  lemma MappingIsNearest(window: Rect, client: Rect, scale: real, r: Rect)
    ensures var m := Mapped(window, client, scale, r);
            && HalfPixel(m.x, client.x, r.x - window.x, scale)
            && HalfPixel(m.y, client.y, r.y - window.y, scale)
            && HalfPixel(m.Right(), client.x, r.x + r.width - window.x, scale)
            && HalfPixel(m.Bottom(), client.y, r.y + r.height - window.y, scale)
  {
    hide RoundReal;
  }

  /** A pixel coordinate is within a half of the anchor plus the scaled length. */
  predicate HalfPixel(pixel: int, anchor: int, length: int, scale: real) {
    var exact := anchor as real + length as real * scale;
    exact - 0.5 <= pixel as real <= exact + 0.5
  }

  lemma NoPixels(scale: real)
    ensures Pixels(0, scale) == 0
  {
  }

  // ----- the split of the screen -----

  const MIN_DASHBOARD: int := 720
  const MIN_MAIN: int := 480

  /** A positive rational scale, num / den. */
  datatype Scale = Scale(num: int, den: int)

  predicate Positive(s: Scale) {
    s.num > 0 && s.den > 0
  }

  /** num / den rounded half up, by cross products. */
  function HalfUp(num: int, den: int): (r: int)
    requires den > 0
  {
    (2 * num + den) / (2 * den)
  }

  /** Rounding half up is off by at most a half, and exactly a half only upwards. */
  lemma HalfUpError(num: int, den: int)
    requires den > 0
    ensures var r := HalfUp(num, den); -den < 2 * (r * den - num) <= den
  {
    var n, d := 2 * num + den, 2 * den;
    var r, m := n / d, n % d;
    assert n == d * r + m;
    assert d * r == 2 * (r * den);
  }

  function TargetWidth(width: int): int {
    var proportional := HalfUp(2 * width, 5);
    if width >= MIN_DASHBOARD + MIN_MAIN then Max(MIN_DASHBOARD, proportional) else proportional
  }

  /**
   The target is two fifths of the screen, rounded half up; on a screen of 1200 pixels or more it is at
   least 720.
   */
  lemma TargetIs(width: int)
    ensures var t := TargetWidth(width);
            var fifths := 2 * (5 * t - 2 * width);
            && (width < 1200 ==> -5 < fifths <= 5)
            && (width >= 1200 ==> t >= 720 && -5 < fifths && (t == 720 || fifths <= 5))
  {
  }

  function LogicalWidth(width: int, s: Scale): int
    requires Positive(s)
  {
    Max(1, HalfUp(TargetWidth(width) * s.den, s.num))
  }

  function DashboardWidth(width: int, s: Scale): int
    requires Positive(s)
  {
    Max(1, HalfUp(LogicalWidth(width, s) * s.num, s.den))
  }

  /** The only accepted pair of windows, or None when the screen is too narrow. */
  function Oracle(available: Rect, s: Scale): Option<(Rect, Rect)>
    requires Positive(s)
  {
    var width := DashboardWidth(available.width, s);
    if width >= available.width then None
    else
      Some((Rect(available.x, available.y, available.width - width, available.height),
            Rect(available.x + available.width - width, available.y, width, available.height)))
  }

  datatype Reason = WindowsOverlap | HorizontalGap | WidthNotCovered | NotAligned | UnexpectedWidth

  datatype LayoutError = TooNarrow | LayoutDiffers(reasons: seq<Reason>)

  /** The reasons against a layout, in the order of the checks. */
  method Disagreements(available: Rect, main: Rect, dashboard: Rect, expected: int) returns (reasons: seq<Reason>)
    ensures WindowsOverlap in reasons <==> main.Right() > dashboard.x
    ensures HorizontalGap in reasons <==> main.Right() < dashboard.x
    ensures WidthNotCovered in reasons <==> main.x != available.x || dashboard.Right() != available.Right()
    ensures NotAligned in reasons <==>
              main.y != available.y || dashboard.y != available.y || main.Bottom() != available.Bottom() ||
                dashboard.Bottom() != available.Bottom()
    ensures UnexpectedWidth in reasons <==> dashboard.width != expected
    ensures reasons == [] <==>
              && main.Right() == dashboard.x && main.x == available.x && dashboard.Right() == available.Right()
              && main.y == available.y && dashboard.y == available.y && main.Bottom() == available.Bottom()
              && dashboard.Bottom() == available.Bottom() && dashboard.width == expected
  {
    reasons := [];
    if main.Right() > dashboard.x {
      reasons := reasons + [WindowsOverlap];
    } else if main.Right() < dashboard.x {
      reasons := reasons + [HorizontalGap];
    }
    if main.x != available.x || dashboard.Right() != available.Right() {
      reasons := reasons + [WidthNotCovered];
    }
    if main.y != available.y || dashboard.y != available.y || main.Bottom() != available.Bottom() ||
      dashboard.Bottom() != available.Bottom() {
      reasons := reasons + [NotAligned];
    }
    if dashboard.width != expected {
      reasons := reasons + [UnexpectedWidth];
    }
  }

  /** Collects every reason against a layout; None means it is accepted. */
  method ValidateWindowLayout(available: Rect, main: Rect, dashboard: Rect, s: Scale)
      returns (error: Option<LayoutError>)
    requires Positive(s)
    ensures error == Some(TooNarrow) <==> Oracle(available, s).None?
    ensures error.None? <==> Oracle(available, s) == Some((main, dashboard))
    ensures error.Some? && error.value.LayoutDiffers? ==>
              var reasons, oracle := error.value.reasons, Oracle(available, s).value;
              && (WindowsOverlap in reasons <==> main.Right() > dashboard.x)
              && (HorizontalGap in reasons <==> main.Right() < dashboard.x)
              && (WidthNotCovered in reasons <==>
                    main.x != oracle.0.x || dashboard.Right() != oracle.1.Right())
              && (NotAligned in reasons <==>
                    main.y != oracle.0.y || main.Bottom() != oracle.0.Bottom() ||
                      dashboard.y != oracle.1.y || dashboard.Bottom() != oracle.1.Bottom())
              && (UnexpectedWidth in reasons <==> dashboard.width != oracle.1.width)
  {
    hide DashboardWidth;
    var expected := DashboardWidth(available.width, s);
    if expected >= available.width {
      return Some(TooNarrow);
    }
    var reasons := Disagreements(available, main, dashboard, expected);
    return if reasons != [] then Some(LayoutDiffers(reasons)) else None;
  }

  /**
   The accepted pair tiles the available area: it covers it, inside it, without overlap, both windows of
   positive size.
   */
  lemma OracleTiles(available: Rect, s: Scale)
    requires Positive(s) && ValidRect(available) && Oracle(available, s).Some?
    ensures var (main, dashboard) := Oracle(available, s).value;
            && ValidRect(main) && ValidRect(dashboard)
            && Inside(main, available) && Inside(dashboard, available) && !Overlap(main, dashboard)
            && main.Right() == dashboard.x && main.width + dashboard.width == available.width
  {
    hide LogicalWidth, HalfUp;
  }

  /** Two scaled roundings: twice the error, in units of 1 / den pixels, is at most num + den. */
  lemma ScaledError(target: int, logical: int, physical: int, num: int, den: int)
    requires num > 0 && den > 0
    requires -num <= 2 * (logical * num - target * den) <= num
    requires -den <= 2 * (physical * den - logical * num) <= den
    ensures -(num + den) <= 2 * (physical * den - target * den) <= num + den
  {
  }

  /** How wide a window of one logical pixel is. */
  function OnePixel(s: Scale): int
    requires Positive(s)
  {
    Max(1, HalfUp(s.num, s.den))
  }

  /** The width differs from the target by at most half of scale + 1 pixels. */
  predicate NearTarget(target: int, physical: int, s: Scale) {
    -(s.num + s.den) <= 2 * ((physical - target) * s.den) <= s.num + s.den
  }

  /**
   The dashboard is near its target exactly when the target is at least half a logical pixel wide, or
   else the single logical pixel it is raised to does not exceed it by more than the bound. The raise
   to one physical pixel never spoils the bound.
   */
  lemma WidthNearTarget(width: int, s: Scale)
    requires Positive(s)
    ensures var target, physical := TargetWidth(width), DashboardWidth(width, s);
            && physical >= 1
            && (s.num > 2 * target * s.den ==> physical == OnePixel(s))
            && (NearTarget(target, physical, s) <==>
                  s.num <= 2 * target * s.den || 2 * ((OnePixel(s) - target) * s.den) <= s.num + s.den)
  {
    hide TargetWidth, HalfUp;
    var target, physical := TargetWidth(width), DashboardWidth(width, s);
    Twice(target, s.den);
    Spread(physical, target, s.den);
    if s.num <= 2 * target * s.den {
      RoundedTwice(target, s);
    } else {
      RaisedLogical(target, s);
      RaisedIsLarge(target, physical, s);
    }
  }

  /** Without a raise of the logical width both roundings are small. */
  lemma RoundedTwice(target: int, s: Scale)
    requires Positive(s) && s.num <= 2 * (target * s.den)
    ensures var logical := Max(1, HalfUp(target * s.den, s.num));
            var physical := Max(1, HalfUp(logical * s.num, s.den));
            -(s.num + s.den) <= 2 * (physical * s.den - target * s.den) <= s.num + s.den
  {
    hide HalfUp;
    var logical := HalfUp(target * s.den, s.num);
    RoundedStep(target * s.den, s.num);
    AtLeast(1, logical, s.num);
    if target < 1 {
      NonPositive(target, s.den);
    }
    AtLeast(1, target, s.den);
    RoundedStep(logical * s.num, s.den);
    ScaledError(target, logical, HalfUp(logical * s.num, s.den), s.num, s.den);
  }

  lemma RaisedLogical(target: int, s: Scale)
    requires Positive(s) && s.num > 2 * (target * s.den)
    ensures HalfUp(target * s.den, s.num) < 1
  {
    var r := HalfUp(target * s.den, s.num);
    HalfUpError(target * s.den, s.num);
    if r >= 1 {
      AtLeast(1, r, s.num);
    }
  }

  /** A raised logical width never falls short of the target. */
  lemma RaisedIsLarge(target: int, physical: int, s: Scale)
    requires Positive(s) && s.num > 2 * (target * s.den) && physical == OnePixel(s)
    ensures 2 * (physical * s.den - target * s.den) >= -(s.num + s.den)
  {
    HalfUpError(s.num, s.den);
    AtLeast(HalfUp(s.num, s.den), physical, s.den);
  }

  lemma AtLeast(a: int, b: int, c: int)
    requires a <= b && c > 0
    ensures a * c <= b * c
  {
  }

  /**
   On a screen ten pixels wide at scale 43/5 the accepted dashboard misses its target by five pixels; the
   bound is 4.8.
   */
  lemma WidthFarFromTarget()
    ensures var s := Scale(43, 5);
            && Oracle(Rect(0, 0, 10, 1), s).Some? && TargetWidth(10) == 4 && DashboardWidth(10, s) == 9
            && !NearTarget(TargetWidth(10), DashboardWidth(10, s), s)
  {
  }

  lemma Twice(a: int, b: int)
    ensures 2 * a * b == 2 * (a * b)
  {
  }

  lemma RoundedStep(num: int, den: int)
    requires den > 0 && den <= 2 * num
    ensures HalfUp(num, den) >= 1 && -den <= 2 * (HalfUp(num, den) * den - num) <= den
  {
    NotRaised(num, den);
    HalfUpError(num, den);
  }

  lemma Spread(a: int, b: int, c: int)
    ensures (a - b) * c == a * c - b * c
  {
  }

  /** Half-up rounding of at least a half gives at least one. */
  lemma NotRaised(num: int, den: int)
    requires den > 0 && den <= 2 * num
    ensures HalfUp(num, den) >= 1
  {
    HalfUpError(num, den);
    if HalfUp(num, den) < 1 {
      NonPositive(HalfUp(num, den), den);
    }
  }

  lemma NonPositive(r: int, den: int)
    requires r <= 0 && den > 0
    ensures r * den <= 0
  {
  }

  /** At scale one the width is the target itself. */
  lemma UnitScale(width: int)
    requires width > 0
    ensures DashboardWidth(width, Scale(1, 1)) == Max(1, TargetWidth(width))
    ensures width >= MIN_DASHBOARD + MIN_MAIN ==> Oracle(Rect(0, 0, width, 1), Scale(1, 1)).Some?
  {
  }
}

/** Fitting a source size into a resolution budget
    (apps/viewer-expo/src/stream-resolution.ts), in exact arithmetic. */
module StreamResolution {
  import opened Wrappers

  datatype Size = Size(width: int, height: int)

  datatype Source = Source(width: real, height: real)

  datatype Budget = Budget(
    maxWidth: Option<real>, maxHeight: Option<real>, maxPixels: Option<real>, allowUpscale: bool)

  function MinReal(a: real, b: real): real { if a <= b then a else b }

  function MaxReal(a: real, b: real): real { if a >= b then a else b }

  lemma ScaleMonotone(a: real, b: real, k: real)
    requires a <= b && 0.0 <= k
    ensures a * k <= b * k
  {
    assert (b - a) * k >= 0.0;
  }

  lemma ScaleStrict(a: real, b: real, k: real)
    requires a < b && 0.0 < k
    ensures a * k < b * k
  {
    assert (b - a) * k > 0.0;
  }

  /** Floors to an even, codec-safe dimension with a floor of two. */
  function EvenCodecDimension(value: real): (d: int)
    ensures d % 2 == 0 && d >= 2
    ensures value >= 2.0 ==> d as real <= value < d as real + 2.0
    ensures value < 2.0 ==> d == 2
  {
    var even := (value / 2.0).Floor * 2;
    if even >= 2 then even else 2
  }

  lemma EvenMonotone(a: real, b: real)
    requires a <= b
    ensures EvenCodecDimension(a) <= EvenCodecDimension(b)
  {
  }

  lemma EvenFixed(n: int)
    requires n % 2 == 0 && n >= 2
    ensures EvenCodecDimension(n as real) == n
  {
  }

  // ------------------------------------------------------ exact arithmetic

  lemma Quotient(a: real, b: real)
    requires b > 0.0
    ensures a / b * b == a
  {
  }

  lemma QuotientMonotone(a: real, b: real, c: real)
    requires a <= b && c > 0.0
    ensures a / c <= b / c
  {
    assert b / c - a / c == (b - a) / c;
  }

  lemma QuotientPositive(a: real, b: real)
    requires a > 0.0 && b > 0.0
    ensures a / b > 0.0
  {
    Quotient(a, b);
    if a / b <= 0.0 {
      ScaleMonotone(a / b, 0.0, b);
    }
  }

  lemma ProductPositive(a: real, b: real)
    requires a > 0.0 && b > 0.0
    ensures a * b > 0.0
  {
  }

  lemma ProductMonotone(a: real, b: real, c: real, d: real)
    requires 0.0 <= a <= c && 0.0 <= b <= d
    ensures a * b <= c * d
  {
    ScaleMonotone(a, c, b);
    ScaleMonotone(b, d, c);
  }

  // --------------------------------------------------- fitStreamResolution

  /** The sides before they are made even; `long` is the source's longer side. */
  datatype Sides = Sides(long: real, short: real)

  function Landscape(s: Source): Sides {
    Sides(MaxReal(s.width, s.height), MinReal(s.width, s.height))
  }

  /** The smaller of two scales; `None` is infinity. */
  function MinScale(a: Option<real>, b: Option<real>): Option<real> {
    if a.None? then b else if b.None? then a else Some(MinReal(a.value, b.value))
  }

  function SideScale(cap: Option<real>, side: real): Option<real> {
    if cap.None? then None else Some(cap.value / MaxReal(1.0, side))
  }

  function BoxScale(x: Sides, b: Budget): Option<real> {
    MinScale(MinScale(SideScale(b.maxWidth, x.long), SideScale(b.maxHeight, x.short)),
             if b.allowUpscale then None else Some(1.0))
  }

  function ScaledSides(x: Sides, k: real): Sides {
    Sides(x.long * k, x.short * k)
  }

  predicate ExceedsPixels(x: Sides, maxPixels: Option<real>) {
    maxPixels.Some? && x.long * x.short > maxPixels.value
  }

  /** The square root of the ratio by which the pixels must shrink. */
  predicate IsRoot(x: Sides, maxPixels: Option<real>, root: real) {
    ExceedsPixels(x, maxPixels) ==> root >= 0.0 && root * root * (x.long * x.short) == maxPixels.value
  }

  function PixelFit(x: Sides, maxPixels: Option<real>, root: real): Sides {
    if ExceedsPixels(x, maxPixels) then ScaledSides(x, root) else x
  }

  function BoxFit(x: Sides, b: Budget): Option<Sides> {
    var scale := BoxScale(x, b);
    if scale.None? then None else Some(ScaledSides(x, scale.value))
  }

  function Even(s: Source, x: Sides): Size {
    if s.height > s.width then Size(EvenCodecDimension(x.short), EvenCodecDimension(x.long))
    else Size(EvenCodecDimension(x.long), EvenCodecDimension(x.short))
  }

  function FittedSides(x: Sides, b: Budget, root: real): Option<Sides> {
    var y := BoxFit(x, b);
    if y.None? then None else Some(PixelFit(y.value, b.maxPixels, root))
  }

  /** `root` is the square root the pixel step takes; without any cap there is no finite
      size. */
  function FitStreamResolution(s: Source, b: Budget, root: real): Option<Size> {
    var y := FittedSides(Landscape(s), b, root);
    if y.None? then None else Some(Even(s, y.value))
  }

  predicate PositiveBudget(b: Budget) {
    && (b.maxWidth.Some? ==> b.maxWidth.value > 0.0)
    && (b.maxHeight.Some? ==> b.maxHeight.value > 0.0)
    && (b.maxPixels.Some? ==> b.maxPixels.value > 0.0)
  }

  /** A source of at least two by two, a meaningful budget, and the right root. */
  predicate Fittable(s: Source, b: Budget, root: real) {
    && s.width >= 2.0 && s.height >= 2.0 && PositiveBudget(b)
    && BoxFit(Landscape(s), b).Some? && IsRoot(BoxFit(Landscape(s), b).value, b.maxPixels, root)
  }

  lemma SideScaleFacts(cap: real, side: real)
    requires cap > 0.0 && side >= 2.0
    ensures SideScale(Some(cap), side).value > 0.0
    ensures side * SideScale(Some(cap), side).value == cap
  {
    QuotientPositive(cap, side);
    Quotient(cap, side);
  }

  /** The smallest of the scales that apply. */
  lemma BoxScaleIsSmallest(x: Sides, b: Budget, k: real)
    requires BoxScale(x, b) == Some(k)
    ensures b.maxWidth.Some? ==> k <= SideScale(b.maxWidth, x.long).value
    ensures b.maxHeight.Some? ==> k <= SideScale(b.maxHeight, x.short).value
    ensures !b.allowUpscale ==> k <= 1.0
    ensures || k == 1.0 || (b.maxWidth.Some? && k == SideScale(b.maxWidth, x.long).value)
            || (b.maxHeight.Some? && k == SideScale(b.maxHeight, x.short).value)
  {
  }

  lemma BoxScaleFacts(x: Sides, b: Budget) returns (k: real)
    requires x.long >= 2.0 && x.short >= 2.0 && PositiveBudget(b) && BoxScale(x, b).Some?
    ensures BoxScale(x, b) == Some(k) && k > 0.0
    ensures !b.allowUpscale ==> k <= 1.0
    ensures b.maxWidth.Some? ==> x.long * k <= b.maxWidth.value
    ensures b.maxHeight.Some? ==> x.short * k <= b.maxHeight.value
  {
    k := BoxScale(x, b).value;
    BoxScaleIsSmallest(x, b, k);
    if b.maxWidth.Some? {
      SideScaleFacts(b.maxWidth.value, x.long);
      ScaleMonotone(k, SideScale(b.maxWidth, x.long).value, x.long);
    }
    if b.maxHeight.Some? {
      SideScaleFacts(b.maxHeight.value, x.short);
      ScaleMonotone(k, SideScale(b.maxHeight, x.short).value, x.short);
    }
  }

  lemma ScaledFacts(x: Sides, k: real) returns (y: Sides)
    requires 0.0 < x.short <= x.long && k > 0.0
    ensures y == ScaledSides(x, k) && 0.0 < y.short <= y.long
    ensures k <= 1.0 ==> y.long <= x.long && y.short <= x.short
  {
    var long, short := x.long * k, x.short * k;
    y := Sides(long, short);
    assert 0.0 < short by {
      ProductPositive(x.short, k);
    }
    assert short <= long by {
      ScaleMonotone(x.short, x.long, k);
    }
    if k <= 1.0 {
      assert long <= x.long by {
        ScaleMonotone(k, 1.0, x.long);
      }
      assert short <= x.short by {
        ScaleMonotone(k, 1.0, x.short);
      }
    }
  }

  /** The box fit keeps the aspect and stays in the box. */
  lemma BoxFacts(x: Sides, b: Budget) returns (y: Sides, k: real)
    requires 2.0 <= x.short <= x.long && PositiveBudget(b) && BoxScale(x, b).Some?
    ensures BoxScale(x, b) == Some(k) && k > 0.0 && y == ScaledSides(x, k) && 0.0 < y.short <= y.long
    ensures b.maxWidth.Some? ==> y.long <= b.maxWidth.value
    ensures b.maxHeight.Some? ==> y.short <= b.maxHeight.value
    ensures !b.allowUpscale ==> y.long <= x.long && y.short <= x.short
  {
    k := BoxScaleFacts(x, b);
    y := ScaledFacts(x, k);
  }

  lemma RootIsBelowOne(p: real, limit: real, root: real)
    requires p > limit > 0.0 && root >= 0.0 && root * root * p == limit
    ensures root < 1.0
  {
    if root >= 1.0 {
      ProductMonotone(1.0, 1.0, root, root);
      ScaleMonotone(1.0, root * root, p);
    }
  }

  lemma ShrunkPixels(x: Sides, root: real)
    ensures ScaledSides(x, root).long * ScaledSides(x, root).short == root * root * (x.long * x.short)
  {
    var w, h := x.long, x.short;
    assert (w * root) * (h * root) == root * root * (w * h);
  }

  /** The pixel step only shrinks, keeps the aspect, ends within the ceiling, and exactly
      on it when it had to shrink. */
  lemma PixelFacts(x: Sides, maxPixels: Option<real>, root: real) returns (y: Sides)
    requires 0.0 < x.short <= x.long && (maxPixels.Some? ==> maxPixels.value > 0.0) && IsRoot(x, maxPixels, root)
    ensures y == PixelFit(x, maxPixels, root)
    ensures 0.0 < y.short <= x.short && 0.0 < y.long <= x.long && y.short <= y.long
    ensures maxPixels.Some? ==> y.long * y.short <= maxPixels.value
    ensures if ExceedsPixels(x, maxPixels) then y.long * y.short == maxPixels.value else y == x
  {
    y := PixelFit(x, maxPixels, root);
    if ExceedsPixels(x, maxPixels) {
      RootIsBelowOne(x.long * x.short, maxPixels.value, root);
      assert root > 0.0;
      ShrunkPixels(x, root);
      var _ := ScaledFacts(x, root);
    }
  }

  // ---------------------------------------------------------- the properties

  function FittedLong(s: Source, r: Size): int {
    if s.height > s.width then r.height else r.width
  }

  function FittedShort(s: Source, r: Size): int {
    if s.height > s.width then r.width else r.height
  }

  /** Even sides of at least two; no side above its budget (or two); and unless upscaling
      is allowed no side above the source's. */
  lemma FitStaysInTheBox(s: Source, b: Budget, root: real) returns (r: Size)
    requires Fittable(s, b, root)
    ensures FitStreamResolution(s, b, root) == Some(r)
    ensures r.width % 2 == 0 && r.height % 2 == 0 && r.width >= 2 && r.height >= 2
    ensures b.maxWidth.Some? ==> FittedLong(s, r) as real <= MaxReal(2.0, b.maxWidth.value)
    ensures b.maxHeight.Some? ==> FittedShort(s, r) as real <= MaxReal(2.0, b.maxHeight.value)
    ensures !b.allowUpscale ==> r.width as real <= s.width && r.height as real <= s.height
  {
    var x, k := BoxFacts(Landscape(s), b);
    var y := PixelFacts(x, b.maxPixels, root);
    r := Even(s, y);
  }

  /** Of a fit within its pixel budget: making the sides even keeps the budget unless the
      short side had to be raised to two. */
  lemma EvenWithinIff(y: Sides, limit: real)
    requires 0.0 < y.short <= y.long && y.long * y.short <= limit
    ensures EvenCodecDimension(y.long) as real * EvenCodecDimension(y.short) as real <= limit
       <==> y.short >= 2.0 || 2.0 * EvenCodecDimension(y.long) as real <= limit
  {
    if y.short >= 2.0 {
      ProductMonotone(EvenCodecDimension(y.long) as real, EvenCodecDimension(y.short) as real, y.long, y.short);
    }
  }

  lemma ProductNonNegative(a: real, b: real)
    requires a >= 0.0 && b >= 0.0
    ensures a * b >= 0.0
  {
  }

  lemma SquareOrder(a: real, b: real)
    requires 0.0 <= a && 0.0 <= b
    ensures a < b <==> a * a < b * b
  {
    var d, e := b - a, b + a;
    assert b * b - a * a == d * e;
    if a < b {
      ProductPositive(d, e);
    } else {
      ProductNonNegative(-d, e);
      assert (-d) * e == -(d * e);
    }
  }

  /** Sides of a given aspect and a given number of pixels, squared. */
  lemma SidesFromPixels(y: Sides, w: real, h: real, pixels: real)
    requires y.long * y.short == pixels && y.long * h == y.short * w
    ensures y.short * y.short * w == pixels * h
    ensures y.long * y.long * h == pixels * w
  {
    assert y.short * (y.short * w) == y.short * (y.long * h);
    assert y.long * (y.long * h) == y.long * (y.short * w);
  }

  /** Comparing a side with a bound, by the aspect and the pixels alone. */
  lemma SideAgainst(side: real, bound: real, a: real, c: real)
    requires 0.0 < side && 0.0 < bound && 0.0 < a && side * side * a == c
    ensures side < bound <==> c < bound * bound * a
  {
    var s, b := side * side, bound * bound;
    var d := b - s;
    SquareOrder(side, bound);
    assert b * a - s * a == d * a;
    if side < bound {
      ProductPositive(d, a);
    } else {
      ProductNonNegative(-d, a);
      assert (-d) * a == -(d * a);
    }
  }

  /** The smallest even number above half the pixel budget. */
  function FirstTooLong(maxPixels: real): int {
    EvenCodecDimension(maxPixels / 2.0) + 2
  }

  /** Twice the even long side stays in the budget exactly when no even number lies
      between half the budget and the side. */
  lemma EvenLongAgainst(long: real, maxPixels: real)
    requires long >= 2.0 && maxPixels >= 4.0
    ensures 2.0 * EvenCodecDimension(long) as real <= maxPixels <==> long < FirstTooLong(maxPixels) as real
  {
    var e, f := EvenCodecDimension(long), EvenCodecDimension(maxPixels / 2.0);
    if long < (f + 2) as real {
      assert e < f + 2;
    } else {
      EvenMonotone((f + 2) as real, long);
      EvenFixed(f + 2);
    }
  }

  /** Whether a fit meets its pixel budget, by the source and the budget alone. When the
      pixel step applies, the short side stays at two or above exactly when the budget is
      at least four times the aspect; below that the fit is two pixels high, and no even
      width may lie between half the budget and the exact width. */
  predicate MeetsThePixels(s: Source, b: Budget)
    requires b.maxPixels.Some? && BoxFit(Landscape(s), b).Some?
  {
    SidesMeet(Landscape(s), BoxFit(Landscape(s), b).value, b.maxPixels)
  }

  predicate SidesMeet(l: Sides, x: Sides, maxPixels: Option<real>)
    requires maxPixels.Some?
  {
    if ExceedsPixels(x, maxPixels) then AspectMeets(l, maxPixels.value)
    else x.short >= 2.0 || 2.0 * EvenCodecDimension(x.long) as real <= maxPixels.value
  }

  lemma RootKeepsAspect(x: Sides, k: real, root: real)
    ensures var y := ScaledSides(ScaledSides(x, k), root);
            y.long * x.short == y.short * x.long
  {
    var w, h := x.long, x.short;
    assert (w * k * root) * h == (h * k * root) * w;
  }

  /** The pixel condition after the pixel step, by the aspect alone. */
  predicate AspectMeets(l: Sides, p: real) {
    || p * l.short >= 4.0 * l.long
    || (p >= 4.0 && p * l.long < FirstTooLong(p) as real * FirstTooLong(p) as real * l.short)
  }

  lemma ShortAgainstTwo(y: Sides, l: Sides, p: real)
    requires 0.0 < l.short <= l.long && 0.0 < y.short <= y.long
    requires y.long * y.short == p && y.long * l.short == y.short * l.long
    ensures y.short >= 2.0 <==> p * l.short >= 4.0 * l.long
  {
    SidesFromPixels(y, l.long, l.short, p);
    SideAgainst(y.short, 2.0, l.long, p * l.short);
  }

  lemma LongAgainstHalf(y: Sides, l: Sides, p: real)
    requires 0.0 < l.short <= l.long && 0.0 < y.short <= y.long && y.short < 2.0
    requires y.long * y.short == p && y.long * l.short == y.short * l.long
    ensures 2.0 * EvenCodecDimension(y.long) as real <= p
       <==> p >= 4.0 && p * l.long < FirstTooLong(p) as real * FirstTooLong(p) as real * l.short
  {
    if p >= 4.0 {
      if y.long < 2.0 {
        ProductMonotone(y.long, y.short, 2.0, y.short);
      }
      EvenLongAgainst(y.long, p);
      SidesFromPixels(y, l.long, l.short, p);
      SideAgainst(y.long, FirstTooLong(p) as real, l.short, p * l.long);
    }
  }

  /** After a pixel step, which leaves exactly the budget and keeps the aspect. */
  lemma ShrunkMeetsIff(y: Sides, l: Sides, p: real)
    requires 0.0 < l.short <= l.long && 0.0 < y.short <= y.long
    requires y.long * y.short == p && y.long * l.short == y.short * l.long
    ensures y.short >= 2.0 || 2.0 * EvenCodecDimension(y.long) as real <= p <==> AspectMeets(l, p)
  {
    ShortAgainstTwo(y, l, p);
    if y.short < 2.0 {
      LongAgainstHalf(y, l, p);
    }
  }

  /** The sides a fit makes even: those of the box, or, when those exceed the budget, ones
      of the same aspect with exactly the budget. */
  lemma PixelSides(l: Sides, k: real, x: Sides, maxPixels: Option<real>, root: real) returns (y: Sides)
    requires x == ScaledSides(l, k) && 0.0 < x.short <= x.long
    requires maxPixels.Some? && maxPixels.value > 0.0 && IsRoot(x, maxPixels, root)
    ensures y == PixelFit(x, maxPixels, root) && 0.0 < y.short <= y.long && y.long * y.short <= maxPixels.value
    ensures if ExceedsPixels(x, maxPixels)
            then y.long * y.short == maxPixels.value && y.long * l.short == y.short * l.long
            else y == x
  {
    y := PixelFacts(x, maxPixels, root);
    RootKeepsAspect(l, k, root);
  }

  predicate UnderThePixels(r: Size, maxPixels: real) { r.width as real * r.height as real <= maxPixels }

  lemma UnderThePixelsIff(s: Source, y: Sides, limit: real)
    requires 0.0 < y.short <= y.long && y.long * y.short <= limit
    ensures UnderThePixels(Even(s, y), limit)
       <==> y.short >= 2.0 || 2.0 * EvenCodecDimension(y.long) as real <= limit
  {
    var e, f := EvenCodecDimension(y.long) as real, EvenCodecDimension(y.short) as real;
    EvenWithinIff(y, limit);
    assert e * f == f * e;
  }

  lemma PixelStepMeetsIff(s: Source, l: Sides, k: real, x: Sides, maxPixels: Option<real>, root: real)
    requires x == ScaledSides(l, k) && 0.0 < x.short <= x.long && 0.0 < l.short <= l.long
    requires maxPixels.Some? && maxPixels.value > 0.0 && IsRoot(x, maxPixels, root)
    ensures UnderThePixels(Even(s, PixelFit(x, maxPixels, root)), maxPixels.value) <==> SidesMeet(l, x, maxPixels)
  {
    var y := PixelSides(l, k, x, maxPixels, root);
    UnderThePixelsIff(s, y, maxPixels.value);
    if ExceedsPixels(x, maxPixels) {
      ShrunkMeetsIff(y, l, maxPixels.value);
    }
  }

  /** The pixel budget holds exactly under that condition on source and budget, whatever
      the root. */
  lemma FitStaysUnderThePixelsIff(s: Source, b: Budget, root: real)
    requires Fittable(s, b, root) && b.maxPixels.Some?
    ensures var r := FitStreamResolution(s, b, root);
            r.Some? && (UnderThePixels(r.value, b.maxPixels.value) <==> MeetsThePixels(s, b))
  {
    var x, k := BoxFacts(Landscape(s), b);
    PixelStepMeetsIff(s, Landscape(s), k, x, b.maxPixels, root);
  }

  /** Raising a side to two can break the pixel budget. */
  lemma ClampedSideBreaksThePixels()
    ensures var s, b := Source(100.0, 2.0), Budget(None, None, Some(8.0), false);
            && Fittable(s, b, 0.2) && FitStreamResolution(s, b, 0.2) == Some(Size(20, 2))
  {
    var s, b := Source(100.0, 2.0), Budget(None, None, Some(8.0), false);
    assert BoxFit(Landscape(s), b) == Some(Sides(100.0, 2.0));
    assert PixelFit(Sides(100.0, 2.0), Some(8.0), 0.2) == Sides(20.0, 0.4);
    assert EvenCodecDimension(20.0) == 20 && EvenCodecDimension(0.4) == 2;
  }

  /** The box fit is the largest: a side reaches its cap, or the source keeps its size
      because upscaling is not allowed. */
  lemma BoxFitReachesABound(x: Sides, b: Budget)
    requires 2.0 <= x.short <= x.long && PositiveBudget(b) && BoxFit(x, b).Some?
    ensures var y := BoxFit(x, b).value;
            || (b.maxWidth.Some? && y.long == b.maxWidth.value)
            || (b.maxHeight.Some? && y.short == b.maxHeight.value)
            || (!b.allowUpscale && y == x)
  {
    var k := BoxScale(x, b).value;
    BoxScaleIsSmallest(x, b, k);
    if b.maxWidth.Some? {
      SideScaleFacts(b.maxWidth.value, x.long);
    }
    if b.maxHeight.Some? {
      SideScaleFacts(b.maxHeight.value, x.short);
    }
  }

  function Turned(s: Source): Source {
    Source(s.height, s.width)
  }

  /** Fitting commutes with turning the display. */
  lemma FitCommutesWithTurning(s: Source, b: Budget, root: real)
    ensures FitStreamResolution(s, b, root).None? <==> FitStreamResolution(Turned(s), b, root).None?
    ensures FitStreamResolution(s, b, root).Some? ==>
      FitStreamResolution(Turned(s), b, root)
      == Some(Size(FitStreamResolution(s, b, root).value.height, FitStreamResolution(s, b, root).value.width))
  {
    assert Landscape(Turned(s)) == Landscape(s);
    var y := FittedSides(Landscape(s), b, root);
    if y.Some? {
      if s.width == s.height {
        SquareStaysSquare(s, b, root);
      }
      EvenTurned(s, y.value);
    }
  }

  lemma EvenTurned(s: Source, x: Sides)
    requires s.width == s.height ==> x.long == x.short
    ensures Even(Turned(s), x) == Size(Even(s, x).height, Even(s, x).width)
  {
  }

  lemma SquareStaysSquare(s: Source, b: Budget, root: real)
    requires s.width == s.height && BoxFit(Landscape(s), b).Some?
    ensures FittedSides(Landscape(s), b, root).value.long == FittedSides(Landscape(s), b, root).value.short
  {
  }

  // ----------------------------------------------------------- monotonicity

  predicate SameAspectAs(x: Sides, y: Sides) {
    x.long * y.short == y.long * x.short
  }

  predicate NoMorePixels(x: Sides, y: Sides) {
    x.long * x.short <= y.long * y.short
  }

  lemma CancelLess(k: real, x: real, y: real)
    requires 0.0 < k && k * x < k * y
    ensures x < y
  {
    if x >= y {
      ScaleMonotone(y, x, k);
    }
  }

  lemma LargerSideHasMorePixels(a: real, b: real, c: real, d: real)
    requires 0.0 < c < a && 0.0 < d && a * d == c * b
    ensures a * b > c * d
  {
    ScaleStrict(c, a, d);
    assert c * d < c * b;
    CancelLess(c, d, b);
    ScaleStrict(d, b, a);
  }

  /** Of two sizes of one aspect, the one with fewer pixels has no larger side. */
  lemma FewerPixelsAreSmaller(x: Sides, y: Sides)
    requires 0.0 < x.long && 0.0 < x.short && 0.0 < y.long && 0.0 < y.short
    requires SameAspectAs(x, y) && NoMorePixels(x, y)
    ensures x.long <= y.long && x.short <= y.short
  {
    if x.long > y.long {
      LargerSideHasMorePixels(x.long, x.short, y.long, y.short);
    }
    if x.short > y.short {
      LargerSideHasMorePixels(x.short, x.long, y.short, y.long);
    }
  }

  lemma ScalingKeepsAspect(x: Sides, j: real, k: real)
    ensures SameAspectAs(ScaledSides(x, j), ScaledSides(x, k))
  {
    var w, h := x.long, x.short;
    assert (w * j) * (h * k) == (w * k) * (h * j);
  }

  lemma AspectSurvives(x: Sides, y: Sides, j: real, k: real)
    requires SameAspectAs(x, y)
    ensures SameAspectAs(ScaledSides(x, j), ScaledSides(y, k))
  {
    var p, q := x.long * y.short, y.long * x.short;
    assert (x.long * j) * (y.short * k) == p * (j * k);
    assert (y.long * k) * (x.short * j) == q * (j * k);
  }

  lemma ScaledByOne(x: Sides)
    ensures ScaledSides(x, 1.0) == x
  {
  }

  lemma PixelFitKeepsAspect(x: Sides, y: Sides, maxPixels: Option<real>, root: real, other: real)
    requires SameAspectAs(x, y)
    ensures SameAspectAs(PixelFit(x, maxPixels, root), PixelFit(y, maxPixels, other))
  {
    var j := if ExceedsPixels(x, maxPixels) then root else 1.0;
    var k := if ExceedsPixels(y, maxPixels) then other else 1.0;
    ScaledByOne(x);
    ScaledByOne(y);
    AspectSurvives(x, y, j, k);
  }

  /** The pixel step is monotone along one aspect. */
  lemma PixelFitMonotone(x: Sides, y: Sides, maxPixels: Option<real>, root: real, other: real) returns (a: Sides, c: Sides)
    requires 0.0 < x.short <= x.long && 0.0 < y.short <= y.long && x.long <= y.long && x.short <= y.short
    requires SameAspectAs(x, y) && (maxPixels.Some? ==> maxPixels.value > 0.0)
    requires IsRoot(x, maxPixels, root) && IsRoot(y, maxPixels, other)
    ensures a == PixelFit(x, maxPixels, root) && c == PixelFit(y, maxPixels, other)
    ensures a.long <= c.long && a.short <= c.short
  {
    a := PixelFacts(x, maxPixels, root);
    c := PixelFacts(y, maxPixels, other);
    if c != y {
      PixelFitKeepsAspect(x, y, maxPixels, root, other);
      FewerPixelsAreSmaller(a, c);
    }
  }

  /** The same budget with a lower (or equal) short-side anchor. */
  predicate LowerAnchor(b: Budget, c: Budget) {
    && c.maxWidth == b.maxWidth && c.maxPixels == b.maxPixels && c.allowUpscale == b.allowUpscale
    && b.maxHeight.Some? && c.maxHeight.Some? && c.maxHeight.value <= b.maxHeight.value
  }

  lemma LowerAnchorLowersScale(x: Sides, b: Budget, c: Budget)
    requires x.long >= 2.0 && x.short >= 2.0 && LowerAnchor(b, c)
    ensures BoxScale(x, c).value <= BoxScale(x, b).value
  {
    QuotientMonotone(c.maxHeight.value, b.maxHeight.value, MaxReal(1.0, x.short));
  }

  lemma ScaledMonotone(x: Sides, j: real, k: real)
    requires 0.0 < x.long && 0.0 < x.short && j <= k
    ensures ScaledSides(x, j).long <= ScaledSides(x, k).long && ScaledSides(x, j).short <= ScaledSides(x, k).short
    ensures SameAspectAs(ScaledSides(x, j), ScaledSides(x, k))
  {
    ScaleMonotone(j, k, x.long);
    ScaleMonotone(j, k, x.short);
    ScalingKeepsAspect(x, j, k);
  }

  lemma BoxFitMonotone(x: Sides, b: Budget, c: Budget) returns (y: Sides, z: Sides)
    requires 2.0 <= x.short <= x.long && PositiveBudget(b) && PositiveBudget(c) && LowerAnchor(b, c)
    ensures BoxFit(x, c) == Some(y) && BoxFit(x, b) == Some(z)
    ensures 0.0 < y.short <= y.long && 0.0 < z.short <= z.long
    ensures y.long <= z.long && y.short <= z.short && SameAspectAs(y, z)
  {
    var j: real, k: real;
    z, k := BoxFacts(x, b);
    y, j := BoxFacts(x, c);
    LowerAnchorLowersScale(x, b, c);
    ScaledMonotone(x, j, k);
  }

  /** A lower short-side anchor never enlarges the fit. */
  lemma LowerAnchorNeverEnlarges(s: Source, b: Budget, c: Budget, root: real, other: real) returns (r: Size, t: Size)
    requires Fittable(s, b, root) && Fittable(s, c, other) && LowerAnchor(b, c)
    ensures FitStreamResolution(s, b, root) == Some(r) && FitStreamResolution(s, c, other) == Some(t)
    ensures t.width <= r.width && t.height <= r.height
  {
    var x, y := BoxFitMonotone(Landscape(s), b, c);
    var q, p := PixelFitMonotone(x, y, b.maxPixels, other, root);
    EvenMonotone(q.long, p.long);
    EvenMonotone(q.short, p.short);
    r, t := Even(s, p), Even(s, q);
  }
}

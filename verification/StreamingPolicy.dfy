/** Start targets of new streams (apps/viewer-expo/src/streaming-policy.ts) and the panel
    cap, in exact arithmetic. */
module StreamingPolicy {
  import opened Wrappers
  import opened StreamResolution

  const STREAM_TARGET_FPS := 60
  const STREAMING_TARGET_MAX_WIDTH := 5_120.0
  const STREAMING_TARGET_MAX_PIXELS := 3_840.0 * 2_160.0
  const RESPONSIVE_STREAM_SHORT_SIDE := 1_440.0
  const CLARITY_STREAM_SHORT_SIDE := 2_160.0
  const EXTERNAL_ROUTE_START_SHORT_SIDE := 1_080.0

  datatype Priority = Responsive | Clarity

  datatype Options = Options(
    externalRoute: bool, panelShortSide: Option<real>, thermalShortSideCap: Option<real>)

  /** The short-side anchor of a start: the panel's or the priority's, lowered by the
      route and by the thermal cap. */
  function Anchor(p: Priority, o: Options): real {
    var start := if o.panelShortSide.Some? then o.panelShortSide.value
                 else if p.Clarity? then CLARITY_STREAM_SHORT_SIDE else RESPONSIVE_STREAM_SHORT_SIDE;
    var routed := if o.externalRoute then MinReal(start, EXTERNAL_ROUTE_START_SHORT_SIDE) else start;
    if o.thermalShortSideCap.Some? then MinReal(routed, o.thermalShortSideCap.value) else routed
  }

  function StartBudget(p: Priority, maximum: Option<Source>, o: Options): Budget {
    var anchor := Anchor(p, o);
    match maximum
    case None =>
      Budget(Some(STREAMING_TARGET_MAX_WIDTH), Some(anchor), Some(STREAMING_TARGET_MAX_PIXELS), false)
    case Some(m) =>
      Budget(Some(MinReal(STREAMING_TARGET_MAX_WIDTH, MaxReal(m.width, m.height))),
             Some(MinReal(anchor, MinReal(m.width, m.height))), Some(STREAMING_TARGET_MAX_PIXELS), false)
  }

  /** The start size; the frame rate is always `STREAM_TARGET_FPS`. */
  function ResolveInitialStreamTarget(s: Source, p: Priority, maximum: Option<Source>, o: Options, root: real): Option<Size> {
    FitStreamResolution(s, StartBudget(p, maximum, o), root)
  }

  /** `capped` has every cap of `o` and possibly more: the external route, or a lower
      thermal cap. */
  predicate MoreCapped(o: Options, capped: Options) {
    && capped.panelShortSide == o.panelShortSide
    && (o.externalRoute ==> capped.externalRoute)
    && (o.thermalShortSideCap.Some? ==>
          capped.thermalShortSideCap.Some? && capped.thermalShortSideCap.value <= o.thermalShortSideCap.value)
  }

  /** Adding an external-route or a thermal cap never enlarges the start target. */
  lemma CapsNeverEnlargeTheStart(
    s: Source, p: Priority, maximum: Option<Source>, o: Options, capped: Options, root: real, other: real)
    returns (r: Size, t: Size)
    requires MoreCapped(o, capped)
    requires Fittable(s, StartBudget(p, maximum, o), root) && Fittable(s, StartBudget(p, maximum, capped), other)
    ensures ResolveInitialStreamTarget(s, p, maximum, o, root) == Some(r)
    ensures ResolveInitialStreamTarget(s, p, maximum, capped, other) == Some(t)
    ensures t.width <= r.width && t.height <= r.height
  {
    r, t := LowerAnchorNeverEnlarges(s, StartBudget(p, maximum, o), StartBudget(p, maximum, capped), root, other);
  }

  /** A start never upscales the source and, side by side, never exceeds the explicit
      maximum (or two). */
  lemma StartStaysWithinTheMaximum(s: Source, p: Priority, m: Source, o: Options, root: real) returns (r: Size)
    requires Fittable(s, StartBudget(p, Some(m), o), root)
    ensures ResolveInitialStreamTarget(s, p, Some(m), o, root) == Some(r)
    ensures r.width as real <= s.width && r.height as real <= s.height
    ensures FittedLong(s, r) as real <= MaxReal(2.0, MaxReal(m.width, m.height))
    ensures FittedShort(s, r) as real <= MaxReal(2.0, MinReal(m.width, m.height))
  {
    r := FitStaysInTheBox(s, StartBudget(p, Some(m), o), root);
  }

  /** Every cap is applied: the short side of a start is within the panel's or the
      priority's, within 1080 on an external route, and within a thermal cap (or two). */
  lemma CapsAreApplied(s: Source, p: Priority, maximum: Option<Source>, o: Options, root: real) returns (r: Size)
    requires Fittable(s, StartBudget(p, maximum, o), root)
    ensures ResolveInitialStreamTarget(s, p, maximum, o, root) == Some(r)
    ensures o.externalRoute ==> FittedShort(s, r) <= 1_080
    ensures o.thermalShortSideCap.Some? ==> FittedShort(s, r) as real <= MaxReal(2.0, o.thermalShortSideCap.value)
    ensures o.panelShortSide.Some? ==> FittedShort(s, r) as real <= MaxReal(2.0, o.panelShortSide.value)
    ensures o.panelShortSide.None? ==> FittedShort(s, r) <= if p.Clarity? then 2_160 else 1_440
    ensures FittedLong(s, r) <= 5_120
  {
    r := FitStaysInTheBox(s, StartBudget(p, maximum, o), root);
  }

  /** The anchor is the smallest of what applies, and one of them. */
  lemma AnchorIsTheSmallest(p: Priority, o: Options)
    ensures var start := if o.panelShortSide.Some? then o.panelShortSide.value else if p.Clarity? then 2_160.0 else 1_440.0;
            var a := Anchor(p, o);
            && a <= start && (o.externalRoute ==> a <= 1_080.0)
            && (o.thermalShortSideCap.Some? ==> a <= o.thermalShortSideCap.value)
            && (|| a == start || (o.externalRoute && a == 1_080.0)
                || (o.thermalShortSideCap.Some? && a == o.thermalShortSideCap.value))
  {
  }

  lemma AnchorScales(long: real, short: real, w: real, h: real) returns (k: real)
    requires 0.0 < short && long * h == short * w
    ensures k == h / short && Sides(w, h) == ScaledSides(Sides(long, short), k)
  {
    k := h / short;
    Quotient(h, short);
    assert (long * k) * short == long * h;
    CancelFactor(long * k, w, short);
  }

  lemma BoxFitReaches(long: real, short: real, w: real, h: real, b: Budget)
    requires 0.0 < w <= STREAMING_TARGET_MAX_WIDTH && 2.0 <= h <= short <= long && long * h == short * w
    requires b.maxWidth == Some(STREAMING_TARGET_MAX_WIDTH) && b.maxHeight == Some(h) && !b.allowUpscale
    ensures BoxFit(Sides(long, short), b) == Some(Sides(w, h))
  {
    var k := AnchorScales(long, short, w, h);
    ScaleIsTheAnchor(long, short, w, h);
    assert BoxScale(Sides(long, short), b) == Some(k);
  }

  /** A source at least as large as a target of its own aspect, with that target's short
      side as the anchor, comes out exactly at the target. */
  lemma SourceReachesItsTarget(long: real, short: real, w: int, h: int, p: Priority, o: Options, root: real)
    requires w % 2 == 0 && h % 2 == 0 && 2 <= h <= w <= 5_120 && Anchor(p, o) == h as real
    requires long * h as real == short * w as real && h as real <= short <= long
    requires w as real * h as real <= STREAMING_TARGET_MAX_PIXELS
    ensures ResolveInitialStreamTarget(Source(long, short), p, None, o, root) == Some(Size(w, h))
  {
    FitReaches(long, short, w, h, StartBudget(p, None, o), root);
  }

  lemma FitReaches(long: real, short: real, w: int, h: int, b: Budget, root: real)
    requires w % 2 == 0 && h % 2 == 0 && 2 <= h <= w <= 5_120
    requires long * h as real == short * w as real && h as real <= short <= long
    requires b.maxWidth == Some(STREAMING_TARGET_MAX_WIDTH) && b.maxHeight == Some(h as real) && !b.allowUpscale
    requires b.maxPixels.Some? && w as real * h as real <= b.maxPixels.value
    ensures FitStreamResolution(Source(long, short), b, root) == Some(Size(w, h))
  {
    BoxFitReaches(long, short, w as real, h as real, b);
    EvenFixed(w);
    EvenFixed(h);
  }

  const NoCaps := Options(false, None, None)

  /** The documented targets: 16:9 sources reach 2560 by 1440 or 3840 by 2160, and 32:9
      sources reach 5120 by 1440. */
  lemma DocumentedTargets(k: real, root: real)
    ensures k >= 160.0 ==> ResolveInitialStreamTarget(Source(16.0 * k, 9.0 * k), Responsive, None, NoCaps, root) == Some(Size(2_560, 1_440))
    ensures k >= 240.0 ==> ResolveInitialStreamTarget(Source(16.0 * k, 9.0 * k), Clarity, None, NoCaps, root) == Some(Size(3_840, 2_160))
    ensures k >= 160.0 ==> ResolveInitialStreamTarget(Source(32.0 * k, 9.0 * k), Responsive, None, NoCaps, root) == Some(Size(5_120, 1_440))
  {
    if k >= 160.0 {
      SourceReachesItsTarget(16.0 * k, 9.0 * k, 2_560, 1_440, Responsive, NoCaps, root);
      SourceReachesItsTarget(32.0 * k, 9.0 * k, 5_120, 1_440, Responsive, NoCaps, root);
    }
    if k >= 240.0 {
      SourceReachesItsTarget(16.0 * k, 9.0 * k, 3_840, 2_160, Clarity, NoCaps, root);
    }
  }

  lemma CancelFactor(a: real, b: real, c: real)
    requires c > 0.0 && a * c == b * c
    ensures a == b
  {
    if a < b {
      ScaleStrict(a, b, c);
    } else if b < a {
      ScaleStrict(b, a, c);
    }
  }

  lemma ScaleIsTheAnchor(long: real, short: real, w: real, h: real)
    requires 0.0 < w <= STREAMING_TARGET_MAX_WIDTH && 2.0 <= h <= short <= long
    requires long * h == short * w
    ensures h / short <= STREAMING_TARGET_MAX_WIDTH / long && h / short <= 1.0
  {
    Quotient(h, short);
    Quotient(w, long);
    assert (h / short) * long == w by {
      assert ((h / short) * long) * short == h * long;
      CancelFactor((h / short) * long, w, short);
    }
    CancelFactor(h / short, w / long, long);
    QuotientMonotone(w, STREAMING_TARGET_MAX_WIDTH, long);
    QuotientMonotone(h, short, short);
    Quotient(short, short);
    CancelFactor(short / short, 1.0, short);
  }

  // ------------------------------------------------------------ panel cap

  function EvenScaled(side: real, scale: real): (r: int)
    ensures r >= 2 && r % 2 == 0
  {
    EvenCodecDimension(side * scale)
  }

  /** Shrinks a target whose short side exceeds the cap; no cap, or zero, is no cap. */
  function CapTargetToPanelShortSide(t: Size, cap: Option<real>): Size
    requires t.width >= 1 && t.height >= 1
  {
    var short := if t.width <= t.height then t.width else t.height;
    if cap.None? || cap.value == 0.0 || short as real <= cap.value then t
    else
      var scale := cap.value / short as real;
      Size(EvenScaled(t.width as real, scale), EvenScaled(t.height as real, scale))
  }

  lemma ShrunkSide(side: int, scale: real)
    requires side >= 2 && scale <= 1.0
    ensures EvenScaled(side as real, scale) <= side
  {
    ScaledDown(side as real, scale);
    EvenIsNoLarger(side as real * scale, side);
  }

  lemma ScaledDown(x: real, k: real)
    requires x >= 0.0 && k <= 1.0
    ensures x * k <= x
  {
    var d := 1.0 - k;
    ProductNonNegative(x, d);
    assert x * d == x - x * k;
  }

  lemma EvenIsNoLarger(value: real, side: int)
    requires side >= 2 && value <= side as real
    ensures EvenCodecDimension(value) <= side
  {
  }

  lemma CappedShortSide(short: int, cap: real) returns (scale: real)
    requires short >= 1 && 2.0 <= cap < short as real
    ensures scale == cap / short as real && scale < 1.0
    ensures EvenScaled(short as real, scale) as real <= cap
  {
    scale := cap / short as real;
    Quotient(cap, short as real);
    if scale >= 1.0 {
      ScaleMonotone(1.0, scale, short as real);
    }
    assert short as real * scale == cap;
  }

  /** Capping never enlarges a side, brings the short side to the cap, and capping again
      changes nothing. */
  lemma CapFacts(t: Size, cap: real) returns (r: Size)
    requires t.width >= 2 && t.height >= 2 && cap >= 2.0
    ensures r == CapTargetToPanelShortSide(t, Some(cap))
    ensures 2 <= r.width <= t.width && 2 <= r.height <= t.height
    ensures r.width as real <= cap || r.height as real <= cap
    ensures r != t ==> r.width % 2 == 0 && r.height % 2 == 0
    ensures CapTargetToPanelShortSide(r, Some(cap)) == r
  {
    r := CapTargetToPanelShortSide(t, Some(cap));
    var short := if t.width <= t.height then t.width else t.height;
    if short as real > cap {
      var scale := CappedShortSide(short, cap);
      ShrunkSide(t.width, scale);
      ShrunkSide(t.height, scale);
      assert r == Size(EvenScaled(t.width as real, scale), EvenScaled(t.height as real, scale));
    }
  }
}

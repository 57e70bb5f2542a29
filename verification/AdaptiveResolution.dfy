/** Adaptive resolution (apps/viewer-expo/src/adaptive-resolution.ts): when a stream is
    moved to its fallback size and back. Ratios and scales are exact. */
module AdaptiveResolution {
  import opened Wrappers
  import opened StreamResolution
  import opened StreamingPolicy

  const DOWNSHIFT_WINDOWS := 2
  const UPSHIFT_WINDOWS := 4
  const REBIND_COOLDOWN_MS := 5_000
  const CONGESTION_FPS_RATIO := 0.9
  const HEALTHY_FPS_RATIO := 0.95
  const FALLBACK_MAX_WIDTH := 2_560
  const FALLBACK_MAX_HEIGHT := 1_440
  const FALLBACK_MIN_DIMENSION := 720

  /** A frame size with its rate; sides are whole pixels. */
  datatype Target = Target(size: Size, fps: int)

  predicate Positive(s: Size) { s.width >= 1 && s.height >= 1 }

  // --------------------------------------------------------- fallbackTargetFor

  function MaxSize(s: Size): Size {
    if s.height > s.width then Size(FALLBACK_MAX_HEIGHT, FALLBACK_MAX_WIDTH)
    else Size(FALLBACK_MAX_WIDTH, FALLBACK_MAX_HEIGHT)
  }

  function ShortOf(s: Size): int {
    if s.width <= s.height then s.width else s.height
  }

  function ScaleToFit(s: Size): real
    requires Positive(s)
  {
    MinReal(MinReal(MaxSize(s).width as real / s.width as real, MaxSize(s).height as real / s.height as real), 1.0)
  }

  /** Keeps the aspect down to the readable minimum of the short side. */
  function FallbackScale(s: Size): real
    requires Positive(s)
  {
    MinReal(1.0, MaxReal(ScaleToFit(s), FALLBACK_MIN_DIMENSION as real / ShortOf(s) as real))
  }

  function FallbackSize(s: Size): Size
    requires Positive(s)
  {
    Size(EvenScaled(s.width as real, FallbackScale(s)), EvenScaled(s.height as real, FallbackScale(s)))
  }

  function FallbackTargetFor(t: Target): Option<Target>
    requires Positive(t.size)
  {
    var s, r, box := t.size, FallbackSize(t.size), MaxSize(t.size);
    if ScaleToFit(s) >= 1.0 then None
    else if r.width > box.width || r.height > box.height then None
    else if r.width >= s.width && r.height >= s.height then None
    else Some(Target(r, t.fps))
  }

  lemma FitsWhole(side: int, limit: int)
    requires 1 <= side <= limit
    ensures limit as real / side as real >= 1.0
  {
    QuotientMonotone(side as real, limit as real, side as real);
    Quotient(side as real, side as real);
  }

  /** A size inside its own box needs no fallback. */
  lemma InsideTheBoxIsNative(t: Target)
    requires Positive(t.size) && t.size.width <= MaxSize(t.size).width && t.size.height <= MaxSize(t.size).height
    ensures FallbackTargetFor(t) == None
  {
    FitsWhole(t.size.width, MaxSize(t.size).width);
    FitsWhole(t.size.height, MaxSize(t.size).height);
  }

  lemma EvenInOrder(p: real, q: real)
    requires p <= q || p <= 0.0
    ensures EvenCodecDimension(p) <= EvenCodecDimension(q)
  {
    if p <= q {
      EvenMonotone(p, q);
    }
  }

  lemma EvenScaledMonotone(x: real, y: real, k: real)
    requires 0.0 <= x <= y
    ensures EvenScaled(x, k) <= EvenScaled(y, k)
  {
    var p, q := x * k, y * k;
    if k >= 0.0 {
      ScaleMonotone(x, y, k);
      assert p <= q;
    } else {
      ScaleMonotone(k, 0.0, x);
      assert p <= 0.0;
    }
    EvenInOrder(p, q);
  }

  lemma FallbackSizeFacts(s: Size) returns (r: Size)
    requires s.width >= 2 && s.height >= 2
    ensures r == FallbackSize(s)
    ensures 2 <= r.width <= s.width && 2 <= r.height <= s.height && r.width % 2 == 0 && r.height % 2 == 0
    ensures s.width >= s.height ==> r.width >= r.height
  {
    r := ScaledSize(s, FallbackScale(s));
  }

  lemma ScaledSize(s: Size, k: real) returns (r: Size)
    requires s.width >= 2 && s.height >= 2 && k <= 1.0
    ensures r == Size(EvenScaled(s.width as real, k), EvenScaled(s.height as real, k))
    ensures r.width <= s.width && r.height <= s.height
    ensures s.width >= s.height ==> r.width >= r.height
  {
    r := Size(EvenScaled(s.width as real, k), EvenScaled(s.height as real, k));
    ShrunkSide(s.width, k);
    ShrunkSide(s.height, k);
    if s.width >= s.height {
      EvenScaledMonotone(s.height as real, s.width as real, k);
    }
  }

  /** A fallback fits its oriented box, never enlarges a side, is smaller in at least one,
      has even sides, keeps the rate, and needs no fallback itself. */
  lemma FallbackFacts(t: Target)
    requires t.size.width >= 2 && t.size.height >= 2 && FallbackTargetFor(t).Some?
    ensures var r, s := FallbackTargetFor(t).value, t.size;
            && r.size.width <= MaxSize(s).width && r.size.height <= MaxSize(s).height
            && 2 <= r.size.width <= s.width && 2 <= r.size.height <= s.height && r.size != s
            && r.size.width % 2 == 0 && r.size.height % 2 == 0 && r.fps == t.fps
            && FallbackTargetFor(r) == None
  {
    var r := FallbackSizeFacts(t.size);
    InsideTheBoxIsNative(Target(r, t.fps));
  }

  // ------------------------------------------------------ windows and shifts

  datatype Observation = Observation(
    nowMs: int,
    receiverLossDelta: int,
    encodedFps: real,
    transmittedFps: Option<real>,
    renderedFps: Option<real>,
    requestedFps: real,
    queueAgeUs: int,
    latencyBudgetUs: int,
    recoveryActive: bool,
    recoveryObserved: bool,
    rebindInFlight: bool,
    floorCollapseDelta: int,
    thermalCapShortSide: Option<real>)

  datatype Quality = Native | Downshifting | Fallback | Upshifting

  datatype State = State(
    sourceTarget: Target, activeTarget: Target, fallbackTarget: Option<Target>, qualityState: Quality,
    congestionWindows: nat, stableWindows: nat, cooldownUntilMs: int)

  datatype Action = Keep | Downshift(target: Target) | Upshift(target: Target)

  predicate Below(fps: Option<real>, limit: real) {
    fps.Some? && fps.value < limit
  }

  predicate FpsCollapsed(o: Observation) {
    var limit := o.requestedFps * CONGESTION_FPS_RATIO;
    o.encodedFps < limit || Below(o.transmittedFps, limit) || Below(o.renderedFps, limit)
  }

  predicate IsCongested(o: Observation) {
    || o.floorCollapseDelta > 0
    || o.queueAgeUs > o.latencyBudgetUs
    || (o.receiverLossDelta > 0 && FpsCollapsed(o))
    || (o.recoveryObserved && FpsCollapsed(o))
  }

  predicate IsHealthy(o: Observation) {
    var limit := o.requestedFps * HEALTHY_FPS_RATIO;
    && o.receiverLossDelta == 0
    && o.encodedFps >= limit
    && !Below(o.renderedFps, limit)
    && o.queueAgeUs <= o.latencyBudgetUs
    && !o.recoveryActive
    && !o.recoveryObserved
  }

  /** A window whose measurements count. */
  predicate IsClean(o: Observation) {
    !o.recoveryActive && !o.rebindInFlight
  }

  function Seed(source: Target, active: Target, nowMs: Option<int>): State
    requires Positive(source.size)
  {
    var moved := active.size != source.size;
    State(source, active, FallbackTargetFor(source), if moved then Fallback else Native, 0, 0,
          if moved && nowMs.Some? then nowMs.value + REBIND_COOLDOWN_MS else 0)
  }

  /** One window: the new state and the shift it asks for. */
  function Observe(s: State, o: Observation): (State, Action)
    requires Positive(s.sourceTarget.size)
  {
    var paused := s.(congestionWindows := 0, stableWindows := 0);
    if !IsClean(o) then (paused, Keep)
    else if s.activeTarget.size == s.sourceTarget.size then
      if o.nowMs < s.cooldownUntilMs then (paused, Keep)
      else
        var next := s.(congestionWindows := if IsCongested(o) then s.congestionWindows + 1 else 0, stableWindows := 0);
        if s.fallbackTarget.Some? && next.congestionWindows >= DOWNSHIFT_WINDOWS
        then (next.(qualityState := Downshifting), Downshift(s.fallbackTarget.value))
        else (next, Keep)
    else
      var next := s.(congestionWindows := 0, stableWindows := if IsHealthy(o) then s.stableWindows + 1 else 0);
      if s.fallbackTarget.Some? && next.stableWindows >= UPSHIFT_WINDOWS && o.nowMs >= s.cooldownUntilMs
      then
        var size := CapTargetToPanelShortSide(s.sourceTarget.size, o.thermalCapShortSide);
        (next.(qualityState := Upshifting), Upshift(Target(size, s.sourceTarget.fps)))
      else (next, Keep)
  }

  /** How the Host answered a shift; `reported` overrides nothing but the size. */
  datatype Answer = Answer(success: bool, nowMs: int, accepted: Option<Target>)

  function Record(s: State, a: Action, answer: Answer): State {
    if a.Keep? then s
    else
      var active := if !answer.success then s.activeTarget
                    else if answer.accepted.Some? then answer.accepted.value else a.target;
      s.(activeTarget := active,
         qualityState := if active.size == s.sourceTarget.size then Native else Fallback,
         congestionWindows := 0, stableWindows := 0,
         cooldownUntilMs := answer.nowMs + REBIND_COOLDOWN_MS)
  }

  /** A window and the answer to the shift it may ask for, which comes before the next
      window. */
  datatype Window = Window(o: Observation, answer: Answer)

  function Next(s: State, w: Window): State
    requires Positive(s.sourceTarget.size)
  {
    var (observed, action) := Observe(s, w.o);
    Record(observed, action, w.answer)
  }

  function ActionOf(s: State, o: Observation): Action
    requires Positive(s.sourceTarget.size)
  {
    Observe(s, o).1
  }

  function Run(s: State, windows: seq<Window>): (t: State)
    requires Positive(s.sourceTarget.size)
    ensures t.sourceTarget == s.sourceTarget && t.fallbackTarget == s.fallbackTarget
  {
    if windows == [] then s else Next(Run(s, windows[..|windows| - 1]), windows[|windows| - 1])
  }

  // ------------------------------------------------------------- every run

  predicate CongestedWindow(o: Observation) { IsClean(o) && IsCongested(o) }

  predicate HealthyWindow(o: Observation) { IsClean(o) && IsHealthy(o) }

  /** The counters count: the last windows were clean and congested, or clean and
      healthy. */
  predicate Counts(s: State, windows: seq<Window>) {
    && s.congestionWindows <= |windows| && s.stableWindows <= |windows|
    && (forall i :: |windows| - s.congestionWindows <= i < |windows| ==> CongestedWindow(windows[i].o))
    && (forall i :: |windows| - s.stableWindows <= i < |windows| ==> HealthyWindow(windows[i].o))
  }

  lemma {:induction false} RunCounts(s: State, windows: seq<Window>)
    requires Positive(s.sourceTarget.size) && s.congestionWindows == 0 && s.stableWindows == 0
    ensures Counts(Run(s, windows), windows)
    decreases |windows|
  {
    if windows != [] {
      var before, last := windows[..|windows| - 1], windows[|windows| - 1];
      RunCounts(s, before);
      assert windows == before + [last];
    }
  }

  /** The time of the last recorded answer of a run. */
  function LastRecord(s: State, windows: seq<Window>): Option<int>
    requires Positive(s.sourceTarget.size)
  {
    if windows == [] then None
    else
      var before, last := windows[..|windows| - 1], windows[|windows| - 1];
      if ActionOf(Run(s, before), last.o).Keep? then LastRecord(s, before) else Some(last.answer.nowMs)
  }

  lemma {:induction false} CooldownFollowsTheLastRecord(s: State, windows: seq<Window>)
    requires Positive(s.sourceTarget.size)
    ensures Run(s, windows).cooldownUntilMs
         == match LastRecord(s, windows) case None => s.cooldownUntilMs case Some(t) => t + REBIND_COOLDOWN_MS
    decreases |windows|
  {
    if windows != [] {
      CooldownFollowsTheLastRecord(s, windows[..|windows| - 1]);
    }
  }

  /** Every downshift ends at least two consecutive congested windows, and every upshift
      at least four consecutive healthy ones, none of them during a recovery or a rebind. */
  lemma ShiftsEndTheirStreak(source: Target, active: Target, seededAt: Option<int>, windows: seq<Window>, o: Observation)
    requires Positive(source.size)
    ensures var a, n := ActionOf(Run(Seed(source, active, seededAt), windows), o), |windows|;
            && (a.Downshift? ==> n >= 1 && CongestedWindow(windows[n - 1].o) && CongestedWindow(o))
            && (a.Upshift? ==> n >= 3 && HealthyWindow(windows[n - 1].o) && HealthyWindow(windows[n - 2].o)
                               && HealthyWindow(windows[n - 3].o) && HealthyWindow(o))
  {
    RunCounts(Seed(source, active, seededAt), windows);
  }

  predicate AtSource(s: State) { s.activeTarget.size == s.sourceTarget.size }

  /** The last `m` windows of a run were congested, past the cooldown and without a shift. */
  predicate CongestedStreak(s: State, windows: seq<Window>, m: nat)
    requires Positive(s.sourceTarget.size)
  {
    m == 0 ||
    (&& windows != []
     && var before, last := windows[..|windows| - 1], windows[|windows| - 1];
        && CongestedWindow(last.o) && last.o.nowMs >= Run(s, before).cooldownUntilMs
        && ActionOf(Run(s, before), last.o).Keep? && CongestedStreak(s, before, m - 1))
  }

  /** The last `m` windows of a run were healthy and without a shift. */
  predicate HealthyStreak(s: State, windows: seq<Window>, m: nat)
    requires Positive(s.sourceTarget.size)
  {
    m == 0 ||
    (&& windows != []
     && var before, last := windows[..|windows| - 1], windows[|windows| - 1];
        HealthyWindow(last.o) && ActionOf(Run(s, before), last.o).Keep? && HealthyStreak(s, before, m - 1))
  }

  /** The counter of a stream at its source's size, and how one window changes it. */
  lemma CongestionStep(s: State, w: Window, m: nat)
    requires Positive(s.sourceTarget.size) && m > 0
    ensures AtSource(Next(s, w)) ==>
              (Next(s, w).congestionWindows >= m <==>
                && CongestedWindow(w.o) && w.o.nowMs >= s.cooldownUntilMs && ActionOf(s, w.o).Keep?
                && AtSource(s) && s.congestionWindows >= m - 1)
  {
  }

  lemma HealthStep(s: State, w: Window, m: nat)
    requires Positive(s.sourceTarget.size) && m > 0
    ensures !AtSource(Next(s, w)) ==>
              (Next(s, w).stableWindows >= m <==>
                && HealthyWindow(w.o) && ActionOf(s, w.o).Keep? && !AtSource(s) && s.stableWindows >= m - 1)
  {
  }

  lemma KeepsSize(s: State, w: Window)
    requires Positive(s.sourceTarget.size) && ActionOf(s, w.o).Keep?
    ensures Next(s, w).activeTarget == s.activeTarget
  {
  }

  lemma {:induction false} CongestionIsTheStreak(s: State, windows: seq<Window>, m: nat)
    requires Positive(s.sourceTarget.size) && s.congestionWindows == 0 && AtSource(Run(s, windows))
    ensures Run(s, windows).congestionWindows >= m <==> CongestedStreak(s, windows, m)
    decreases m
  {
    if m > 0 && windows != [] {
      var before, last := windows[..|windows| - 1], windows[|windows| - 1];
      CongestionStep(Run(s, before), last, m);
      if ActionOf(Run(s, before), last.o).Keep? {
        KeepsSize(Run(s, before), last);
        CongestionIsTheStreak(s, before, m - 1);
      }
    }
  }

  lemma {:induction false} HealthIsTheStreak(s: State, windows: seq<Window>, m: nat)
    requires Positive(s.sourceTarget.size) && s.stableWindows == 0 && !AtSource(Run(s, windows))
    ensures Run(s, windows).stableWindows >= m <==> HealthyStreak(s, windows, m)
    decreases m
  {
    if m > 0 && windows != [] {
      var before, last := windows[..|windows| - 1], windows[|windows| - 1];
      HealthStep(Run(s, before), last, m);
      if ActionOf(Run(s, before), last.o).Keep? {
        KeepsSize(Run(s, before), last);
        HealthIsTheStreak(s, before, m - 1);
      }
    }
  }

  /** In every run the downshift is asked for exactly on the second of consecutive clean
      congested windows past the cooldown, by a stream at the size of a source that has a
      fallback. */
  lemma DownshiftsIff(source: Target, active: Target, seededAt: Option<int>, windows: seq<Window>, o: Observation)
    requires Positive(source.size)
    ensures var s := Seed(source, active, seededAt);
            var t := Run(s, windows);
            ActionOf(t, o).Downshift? <==>
              && t.fallbackTarget.Some? && AtSource(t) && o.nowMs >= t.cooldownUntilMs
              && CongestedWindow(o) && CongestedStreak(s, windows, DOWNSHIFT_WINDOWS - 1)
  {
    var s := Seed(source, active, seededAt);
    if AtSource(Run(s, windows)) {
      CongestionIsTheStreak(s, windows, DOWNSHIFT_WINDOWS - 1);
    }
  }

  /** The upshift exactly on the fourth of consecutive clean healthy windows, once past
      the cooldown, by a stream at another size than its source's. */
  lemma UpshiftsIff(source: Target, active: Target, seededAt: Option<int>, windows: seq<Window>, o: Observation)
    requires Positive(source.size)
    ensures var s := Seed(source, active, seededAt);
            var t := Run(s, windows);
            ActionOf(t, o).Upshift? <==>
              && t.fallbackTarget.Some? && !AtSource(t) && o.nowMs >= t.cooldownUntilMs
              && HealthyWindow(o) && HealthyStreak(s, windows, UPSHIFT_WINDOWS - 1)
  {
    var s := Seed(source, active, seededAt);
    if !AtSource(Run(s, windows)) {
      HealthIsTheStreak(s, windows, UPSHIFT_WINDOWS - 1);
    }
  }

  /** No shift is asked for less than five seconds after the previous answer was
      recorded, whether it was a success or a failure; before any answer, not before the
      cooldown of the seed is over. */
  lemma ShiftsKeepTheCooldown(source: Target, active: Target, seededAt: Option<int>, windows: seq<Window>, o: Observation)
    requires Positive(source.size)
    requires !ActionOf(Run(Seed(source, active, seededAt), windows), o).Keep?
    ensures var s := Seed(source, active, seededAt);
            match LastRecord(s, windows)
            case Some(t) => o.nowMs >= t + REBIND_COOLDOWN_MS
            case None => active.size != source.size && seededAt.Some? ==> o.nowMs >= seededAt.value + REBIND_COOLDOWN_MS
  {
    CooldownFollowsTheLastRecord(Seed(source, active, seededAt), windows);
  }

  /** A downshift asks for the fallback of the source; an upshift never asks for more than
      the source, nor for more than a thermal cap on the short side. */
  lemma ShiftTargets(source: Target, active: Target, seededAt: Option<int>, windows: seq<Window>, o: Observation)
    requires source.size.width >= 2 && source.size.height >= 2
    requires o.thermalCapShortSide.Some? ==> o.thermalCapShortSide.value >= 2.0
    ensures var a := ActionOf(Run(Seed(source, active, seededAt), windows), o);
            && (a.Downshift? ==> FallbackTargetFor(source) == Some(a.target))
            && (a.Upshift? ==>
                  && a.target.size.width <= source.size.width && a.target.size.height <= source.size.height
                  && (o.thermalCapShortSide.Some? ==> ShortOf(a.target.size) as real <= o.thermalCapShortSide.value))
  {
    if o.thermalCapShortSide.Some? {
      var r := CapFacts(source.size, o.thermalCapShortSide.value);
    }
  }

  /** The evidence, in numbers: frame rates below nine tenths of the requested one count
      only with loss or recoveries; a collapsed floor or a queue older than its budget
      count by themselves. */
  lemma CongestionInNumbers(o: Observation)
    ensures IsCongested(o) <==>
            || o.floorCollapseDelta >= 1 || o.latencyBudgetUs < o.queueAgeUs
            || ((o.receiverLossDelta >= 1 || o.recoveryObserved)
                && (|| o.encodedFps < 0.9 * o.requestedFps
                    || (o.transmittedFps.Some? && o.transmittedFps.value < 0.9 * o.requestedFps)
                    || (o.renderedFps.Some? && o.renderedFps.value < 0.9 * o.requestedFps)))
  {
  }

  lemma HealthInNumbers(o: Observation)
    ensures IsHealthy(o) <==>
            && o.receiverLossDelta == 0 && o.queueAgeUs <= o.latencyBudgetUs && !o.recoveryActive && !o.recoveryObserved
            && 0.95 * o.requestedFps <= o.encodedFps
            && (o.renderedFps.Some? ==> 0.95 * o.requestedFps <= o.renderedFps.value)
  {
  }

  /** An upshift asks for the source itself, or under a thermal cap below its short side
      for a size whose short side is the cap, rounded down to an even number. */
  lemma UpshiftGoesAllTheWay(source: Target, active: Target, seededAt: Option<int>, windows: seq<Window>, o: Observation)
    requires source.size.width >= 2 && source.size.height >= 2
    requires o.thermalCapShortSide.Some? ==> o.thermalCapShortSide.value >= 2.0
    requires ActionOf(Run(Seed(source, active, seededAt), windows), o).Upshift?
    ensures var t := ActionOf(Run(Seed(source, active, seededAt), windows), o).target;
            && t.fps == source.fps
            && if o.thermalCapShortSide.None? || ShortOf(source.size) as real <= o.thermalCapShortSide.value
               then t.size == source.size
               else o.thermalCapShortSide.value - 2.0 < ShortOf(t.size) as real <= o.thermalCapShortSide.value
  {
    if o.thermalCapShortSide.Some? && ShortOf(source.size) as real > o.thermalCapShortSide.value {
      CapIsReached(source.size, o.thermalCapShortSide.value);
    }
  }

  lemma CapIsReached(s: Size, cap: real)
    requires s.width >= 2 && s.height >= 2 && 2.0 <= cap < ShortOf(s) as real
    ensures cap - 2.0 < ShortOf(CapTargetToPanelShortSide(s, Some(cap))) as real <= cap
  {
    var short, long := ShortOf(s), if s.width <= s.height then s.height else s.width;
    var scale := cap / short as real;
    Quotient(cap, short as real);
    ScaledToTheCap(short as real, cap, scale);
    EvenScaledMonotone(short as real, long as real, scale);
  }

  lemma ScaledToTheCap(x: real, cap: real, scale: real)
    requires x > 0.0 && cap >= 2.0 && scale * x == cap
    ensures cap - 2.0 < EvenScaled(x, scale) as real <= cap
  {
    var scaled := x * scale;
    assert scaled == scale * x;
    assert EvenScaled(x, scale) == EvenCodecDimension(scaled);
  }

  /** A fallback stays readable: its short side is at least 720, or as large as the
      source's, rounded down to an even number. */
  lemma FallbackIsReadable(t: Target)
    requires t.size.width >= 2 && t.size.height >= 2 && FallbackTargetFor(t).Some?
    ensures var r := FallbackTargetFor(t).value.size;
            ShortOf(r) >= 720 || ShortOf(r) >= ShortOf(t.size) - 1
  {
    var r := ReadableFallback(t.size);
  }

  lemma ReadableFallback(s: Size) returns (r: Size)
    requires s.width >= 2 && s.height >= 2
    ensures r == FallbackSize(s)
    ensures ShortOf(r) >= 720 || ShortOf(r) >= ShortOf(s) - 1
  {
    ScaleIsReadable(s);
    r := ReadableSize(s, FallbackScale(s), LeastScale(s));
  }

  lemma ReadableSize(s: Size, k: real, least: real) returns (r: Size)
    requires s.width >= 2 && s.height >= 2
    requires (k >= 1.0 || k >= least) && least * ShortOf(s) as real == 720.0
    ensures r == Size(EvenScaled(s.width as real, k), EvenScaled(s.height as real, k))
    ensures ShortOf(r) >= 720 || ShortOf(r) >= ShortOf(s) - 1
  {
    r := Size(EvenScaled(s.width as real, k), EvenScaled(s.height as real, k));
    ReadableSide(ShortOf(s), k, least);
    ShortSideStaysShort(s, k);
  }

  function LeastScale(s: Size): real
    requires Positive(s)
  {
    720.0 / ShortOf(s) as real
  }

  lemma ScaleIsReadable(s: Size)
    requires Positive(s)
    ensures FallbackScale(s) >= 1.0 || FallbackScale(s) >= LeastScale(s)
    ensures LeastScale(s) * ShortOf(s) as real == 720.0
  {
    Quotient(720.0, ShortOf(s) as real);
  }

  lemma ShortSideStaysShort(s: Size, k: real)
    requires Positive(s)
    ensures ShortOf(Size(EvenScaled(s.width as real, k), EvenScaled(s.height as real, k)))
         == EvenScaled(ShortOf(s) as real, k)
  {
    if s.width <= s.height {
      EvenScaledMonotone(s.width as real, s.height as real, k);
    } else {
      EvenScaledMonotone(s.height as real, s.width as real, k);
    }
  }

  lemma ReadableSide(short: int, k: real, least: real)
    requires short >= 2 && (k >= 1.0 || k >= least) && least * short as real == 720.0
    ensures EvenScaled(short as real, k) >= 720 || EvenScaled(short as real, k) >= short - 1
  {
    var scaled := ScaledAtLeast(short as real, k, least);
    EvenOfAtLeast(scaled, short);
  }

  lemma ScaledAtLeast(x: real, k: real, least: real) returns (scaled: real)
    requires x > 0.0 && (k >= 1.0 || k >= least) && least * x == 720.0
    ensures EvenScaled(x, k) == EvenCodecDimension(scaled)
    ensures scaled >= x || scaled >= 720.0
  {
    scaled := x * k;
    if k >= 1.0 {
      var d := k - 1.0;
      ProductNonNegative(x, d);
      assert x * d == x * k - x;
    } else {
      var e := k - least;
      ProductNonNegative(x, e);
      assert x * e == x * k - least * x;
    }
  }

  lemma EvenOfAtLeast(value: real, side: int)
    requires side >= 2 && (value >= side as real || value >= 720.0)
    ensures EvenCodecDimension(value) >= 720 || EvenCodecDimension(value) >= side - 1
  {
    if value >= 720.0 {
      EvenMonotone(720.0, value);
      EvenFixed(720);
    }
  }

  // ------------------------------------------------------ answers are recorded

  /** What a recorded answer to a shift leaves. A failure keeps the active target; a
      success takes the target the Host reported, or else the one that was asked for.
      Either way both counts start over, the cooldown runs for five seconds from the
      answer, and the quality is native exactly at the source's size. */
  lemma AnswerIsRecorded(s: State, a: Action, answer: Answer)
    requires !a.Keep?
    ensures var t := Record(s, a, answer);
            && (!answer.success ==> t.activeTarget == s.activeTarget)
            && (answer.success && answer.accepted.Some? ==> t.activeTarget == answer.accepted.value)
            && (answer.success && answer.accepted.None? ==> t.activeTarget == a.target)
            && t.congestionWindows == 0 && t.stableWindows == 0 && t.cooldownUntilMs == answer.nowMs + 5_000
            && (t.qualityState == Native <==> t.activeTarget.size == s.sourceTarget.size)
            && (t.qualityState == Fallback <==> t.activeTarget.size != s.sourceTarget.size)
            && t.sourceTarget == s.sourceTarget && t.fallbackTarget == s.fallbackTarget
  {
  }

  /** The target that the answers of a run leave active: that of the last successful shift,
      or else the first one. */
  function LastActive(s: State, windows: seq<Window>): Target
    requires Positive(s.sourceTarget.size)
  {
    if windows == [] then s.activeTarget
    else
      var before, last := windows[..|windows| - 1], windows[|windows| - 1];
      var a := ActionOf(Run(s, before), last.o);
      if a.Keep? || !last.answer.success then LastActive(s, before)
      else if last.answer.accepted.Some? then last.answer.accepted.value else a.target
  }

  /** In every run the active target is that one. */
  lemma {:induction false} ActiveFollowsTheAnswers(s: State, windows: seq<Window>)
    requires Positive(s.sourceTarget.size)
    ensures Run(s, windows).activeTarget == LastActive(s, windows)
    decreases |windows|
  {
    if windows != [] {
      var before, last := windows[..|windows| - 1], windows[|windows| - 1];
      ActiveFollowsTheAnswers(s, before);
      ObservingKeepsTheTarget(Run(s, before), last.o);
    }
  }

  lemma ObservingKeepsTheTarget(s: State, o: Observation)
    requires Positive(s.sourceTarget.size)
    ensures Observe(s, o).0.activeTarget == s.activeTarget
  {
  }

  /** A stream starts native at its source's size; one that starts at another size starts
      as a fallback, in its cooldown when the time is known. */
  lemma SeedFacts(source: Target, active: Target, nowMs: Option<int>)
    requires Positive(source.size)
    ensures var s := Seed(source, active, nowMs);
            && s.sourceTarget == source && s.activeTarget == active && s.fallbackTarget == FallbackTargetFor(source)
            && s.congestionWindows == 0 && s.stableWindows == 0
            && (s.qualityState == Native <==> active.size == source.size)
            && s.cooldownUntilMs == if active.size != source.size && nowMs.Some? then nowMs.value + 5_000 else 0
  {
  }

  /** Scaling a size by the scale that brings its long side to 2560. */
  lemma FallbackAt(s: Size, k: real, r: Size, fps: int)
    requires s.width >= 2 && s.height >= 2 && ScaleToFit(s) == k < 1.0 && LeastScale(s) <= k
    requires EvenScaled(s.width as real, k) == r.width && EvenScaled(s.height as real, k) == r.height
    requires r.width <= MaxSize(s).width && r.height <= MaxSize(s).height && r.width < s.width
    ensures FallbackTargetFor(Target(s, fps)) == Some(Target(r, fps))
  {
  }

  lemma EvenTwoThirds()
    ensures EvenScaled(3_840.0, 2.0 / 3.0) == 2_560 && EvenScaled(2_160.0, 2.0 / 3.0) == 1_440
    ensures EvenScaled(5_120.0, 0.5) == 2_560 && EvenScaled(1_440.0, 0.5) == 720
  {
    assert 3_840.0 * (2.0 / 3.0) == 2_560.0 && 2_160.0 * (2.0 / 3.0) == 1_440.0;
    assert 5_120.0 * 0.5 == 2_560.0 && 1_440.0 * 0.5 == 720.0;
    EvenFixed(2_560);
    EvenFixed(1_440);
    EvenFixed(720);
  }

  /** The fallback of 4K in both orientations, and of a wide screen. */
  lemma DocumentedFallbacks(fps: int)
    ensures FallbackTargetFor(Target(Size(3_840, 2_160), fps)) == Some(Target(Size(2_560, 1_440), fps))
    ensures FallbackTargetFor(Target(Size(2_160, 3_840), fps)) == Some(Target(Size(1_440, 2_560), fps))
    ensures FallbackTargetFor(Target(Size(5_120, 1_440), fps)) == Some(Target(Size(2_560, 720), fps))
  {
    EvenTwoThirds();
    FallbackAt(Size(3_840, 2_160), 2.0 / 3.0, Size(2_560, 1_440), fps);
    FallbackAt(Size(2_160, 3_840), 2.0 / 3.0, Size(1_440, 2_560), fps);
    FallbackAt(Size(5_120, 1_440), 0.5, Size(2_560, 720), fps);
  }
}

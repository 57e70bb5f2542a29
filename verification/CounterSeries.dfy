/** Counter series of the performance tools (tools/perf-matrix/analyze-performance.ts):
    the one-second frame rate and the intervals without progress. */
module CounterSeries {
  import opened Wrappers

  datatype Sample = Sample(timestampMs: real, frames: int)

  datatype Interval = Interval(startMs: real, endMs: real)

  predicate Sorted(s: seq<Sample>) {
    forall i, j :: 0 <= i <= j < |s| ==> s[i].timestampMs <= s[j].timestampMs
  }

  // ----------------------------------------------------- one-second frame rate

  function Elapsed(s: seq<Sample>, e: nat, p: nat): real
    requires p <= e < |s|
  {
    s[e].timestampMs - s[p].timestampMs
  }

  predicate AboutASecondBack(s: seq<Sample>, e: nat, p: nat)
    requires p <= e < |s|
  {
    800.0 <= Elapsed(s, e, p) <= 1_200.0
  }

  /** The exhaustive choice among the samples from `p` up to the endpoint. */
  function Farthest(s: seq<Sample>, e: nat, p: nat): (r: Option<nat>)
    requires p <= e < |s|
    ensures r.Some? ==> p <= r.value < e
    decreases e - p
  {
    if p == e then None
    else
      var rest := Farthest(s, e, p + 1);
      if AboutASecondBack(s, e, p) && (rest.None? || Elapsed(s, e, p) > Elapsed(s, e, rest.value)) then Some(p) else rest
  }

  /** It is the sample farthest back that is 800 to 1200 ms old, the latest such one when
      several share their time, and there is none only if no sample qualifies. */
  lemma {:induction false} FarthestIsFarthest(s: seq<Sample>, e: nat, p: nat, q: nat)
    requires p <= q < e < |s| && AboutASecondBack(s, e, q)
    ensures Farthest(s, e, p).Some? && AboutASecondBack(s, e, Farthest(s, e, p).value)
    ensures Elapsed(s, e, q) <= Elapsed(s, e, Farthest(s, e, p).value)
    ensures Elapsed(s, e, q) == Elapsed(s, e, Farthest(s, e, p).value) ==> q <= Farthest(s, e, p).value
    decreases e - p
  {
    if p < q {
      FarthestIsFarthest(s, e, p + 1, q);
    } else {
      FarthestQualifies(s, e, p + 1);
    }
  }

  lemma {:induction false} FarthestQualifies(s: seq<Sample>, e: nat, p: nat)
    requires p <= e < |s|
    ensures Farthest(s, e, p).Some? ==> AboutASecondBack(s, e, Farthest(s, e, p).value)
    decreases e - p
  {
    if p < e {
      FarthestQualifies(s, e, p + 1);
    }
  }

  /** Two samples of which the earlier is between 800 and 1200 ms back. */
  predicate Apart(s: seq<Sample>, e: nat, p: nat) {
    p < e < |s| && 800.0 <= s[e].timestampMs - s[p].timestampMs <= 1200.0
  }

  /** The frame rate between two samples: its frames per second over their distance are
      the frames between them. */
  predicate IsRate(s: seq<Sample>, e: nat, p: nat, fps: real) {
    p < e < |s| && fps * ((s[e].timestampMs - s[p].timestampMs) / 1000.0) == (s[e].frames - s[p].frames) as real
  }

  lemma RateIsRate(s: seq<Sample>, e: nat, p: nat)
    requires p < e < |s| && AboutASecondBack(s, e, p)
    ensures IsRate(s, e, p, RateFrom(s, e, p))
  {
    var frames, ms := (s[e].frames - s[p].frames) as real, Elapsed(s, e, p);
    var rate := RateFrom(s, e, p);
    assert ((s[e].frames - s[p].frames) * 1_000) as real == frames * 1000.0;
    assert rate == frames * 1000.0 / ms;
    assert rate * ms == frames * 1000.0;
    assert rate * (ms / 1000.0) == rate * ms / 1000.0;
  }

  /** Every rate is that of a sample and one 800 to 1200 ms before it. */
  lemma {:induction false} RatesAreFrameRates(s: seq<Sample>, n: nat)
    requires n <= |s|
    ensures forall r :: r in Rates(s, n) ==> exists e, p :: Apart(s, e, p) && IsRate(s, e, p, r)
    decreases n
  {
    if n > 0 {
      RatesAreFrameRates(s, n - 1);
      var best := Farthest(s, n - 1, 0);
      FarthestQualifies(s, n - 1, 0);
      if best.Some? {
        RateIsRate(s, n - 1, best.value);
        assert Apart(s, n - 1, best.value);
      }
    }
  }

  /** Exactly the samples that have one 800 to 1200 ms before them add a rate. */
  lemma EndpointAddsARate(s: seq<Sample>, e: nat)
    requires e < |s|
    ensures |Rates(s, e + 1)| == |Rates(s, e)| + if exists p :: Apart(s, e, p) then 1 else 0
  {
    var best := Farthest(s, e, 0);
    FarthestQualifies(s, e, 0);
    assert best.Some? ==> Apart(s, e, best.value);
    if p :| Apart(s, e, p) {
      FarthestIsFarthest(s, e, 0, p);
    }
  }

  /** Samples that are too old change nothing. */
  lemma {:induction false} OldSamplesDoNotMatter(s: seq<Sample>, e: nat, p: nat)
    requires Sorted(s) && p < e < |s| && Elapsed(s, e, p) > 1_200.0
    ensures Farthest(s, e, 0) == Farthest(s, e, p + 1)
  {
    var q := p + 1;
    while q > 0
      invariant 0 <= q <= p + 1 && Farthest(s, e, q) == Farthest(s, e, p + 1)
    {
      q := q - 1;
      assert s[q].timestampMs <= s[p].timestampMs;
    }
  }

  function RateFrom(s: seq<Sample>, e: nat, p: nat): real
    requires p < e < |s| && AboutASecondBack(s, e, p)
  {
    ((s[e].frames - s[p].frames) * 1_000) as real / Elapsed(s, e, p)
  }

  /** The rates of the endpoints before `n`, by exhaustive choice. */
  function Rates(s: seq<Sample>, n: nat): seq<real>
    requires n <= |s|
  {
    if n == 0 then []
    else
      var best := Farthest(s, n - 1, 0);
      FarthestQualifies(s, n - 1, 0);
      Rates(s, n - 1) + (if best.Some? then [RateFrom(s, n - 1, best.value)] else [])
  }

  /** `nearestOneSecondFps` on time-ordered samples: the scan stops early, and finds the
      same samples. */
  method NearestOneSecondFps(s: seq<Sample>) returns (fps: seq<real>)
    requires Sorted(s)
    ensures fps == Rates(s, |s|)
  {
    fps := [];
    for endpoint := 0 to |s|
      invariant fps == Rates(s, endpoint)
    {
      var candidate: Option<nat> := NearestOneSecondSample(s, endpoint);
      if candidate.Some? {
        FarthestQualifies(s, endpoint, 0);
        fps := fps + [RateFrom(s, endpoint, candidate.value)];
      }
    }
  }

  method NearestOneSecondSample(s: seq<Sample>, endpoint: nat) returns (candidate: Option<nat>)
    requires Sorted(s) && endpoint < |s|
    ensures candidate == Farthest(s, endpoint, 0)
  {
    candidate := None;
    var prior := endpoint;
    while prior > 0
      invariant 0 <= prior <= endpoint && candidate == Farthest(s, endpoint, prior)
    {
      prior := prior - 1;
      var elapsed := s[endpoint].timestampMs - s[prior].timestampMs;
      if elapsed > 1_200.0 {
        OldSamplesDoNotMatter(s, endpoint, prior);
        return;
      }
      if elapsed >= 800.0
         && (candidate.None? || elapsed > s[endpoint].timestampMs - s[candidate.value].timestampMs) {
        candidate := Some(prior);
      }
    }
  }

  // ------------------------------------------------------- zero-counter intervals

  /** The counter stood still between this sample and the one before. */
  predicate Still(s: seq<Sample>, i: nat)
    requires 0 < i < |s|
  {
    s[i].frames == s[i - 1].frames && s[i].timestampMs > s[i - 1].timestampMs
  }

  /** How far the counter stands still from sample `i` on. */
  function RunEnd(s: seq<Sample>, i: nat): (j: nat)
    requires i < |s|
    ensures i <= j < |s|
    decreases |s| - i
  {
    if i + 1 < |s| && Still(s, i + 1) then RunEnd(s, i + 1) else i
  }

  /** The runs of at least two samples that start at `i` or later. */
  function Runs(s: seq<Sample>, i: nat): seq<(nat, nat)>
    requires i <= |s|
    decreases |s| - i
  {
    if i == |s| then []
    else
      var j := RunEnd(s, i);
      (if j > i then [(i, j)] else []) + Runs(s, j + 1)
  }

  /** A maximal stretch of one counter value. */
  ghost predicate MaximalRun(s: seq<Sample>, i: nat, j: nat) {
    && i < j < |s|
    && (forall k :: i <= k <= j ==> s[k].frames == s[i].frames)
    && (i > 0 ==> s[i - 1].frames != s[i].frames)
    && (j + 1 < |s| ==> s[j + 1].frames != s[j].frames)
  }

  ghost predicate StrictlyIncreasing(s: seq<Sample>) {
    forall i, j :: 0 <= i < j < |s| ==> s[i].timestampMs < s[j].timestampMs
  }

  lemma {:induction false} RunEndFacts(s: seq<Sample>, i: nat)
    requires i < |s| && StrictlyIncreasing(s)
    ensures forall k :: i <= k <= RunEnd(s, i) ==> s[k].frames == s[i].frames
    ensures RunEnd(s, i) + 1 < |s| ==> s[RunEnd(s, i) + 1].frames != s[i].frames
    decreases |s| - i
  {
    if i + 1 < |s| && Still(s, i + 1) {
      RunEndFacts(s, i + 1);
    }
  }

  /** The stretch found at `from` is maximal, and no other one begins in it. */
  lemma FirstRun(s: seq<Sample>, from: nat, i: nat, j: nat) returns (end: nat)
    requires from < |s| && from <= i && StrictlyIncreasing(s)
    requires from > 0 ==> s[from - 1].frames != s[from].frames
    ensures end == RunEnd(s, from)
    ensures end + 1 < |s| ==> s[end].frames != s[end + 1].frames
    ensures i <= end ==> (MaximalRun(s, i, j) <==> i == from && j == end && end > from)
  {
    end := RunEnd(s, from);
    RunEndFacts(s, from);
    assert forall k :: from <= k <= end ==> s[k].frames == s[from].frames;
    if from < i <= end {
      assert s[i - 1].frames == s[i].frames;
    } else if i == from <= j < end {
      assert s[j + 1].frames == s[j].frames;
    } else if i == from && end < j < |s| {
      assert s[end + 1].frames != s[i].frames;
    }
  }

  /** With strictly increasing times the runs are exactly the maximal stretches of one
      counter value. */
  lemma {:induction false} RunsAreMaximal(s: seq<Sample>, from: nat, i: nat, j: nat)
    requires from <= |s| && StrictlyIncreasing(s) && (0 < from < |s| ==> s[from - 1].frames != s[from].frames)
    ensures (i, j) in Runs(s, from) <==> MaximalRun(s, i, j) && from <= i
    decreases |s| - from
  {
    if from > i {
      RunsStartLater(s, from, (i, j));
    } else if from < |s| {
      var end := FirstRun(s, from, i, j);
      NextRun(s, from, (i, j));
      RunsAreMaximal(s, end + 1, i, j);
    }
  }

  lemma NextRun(s: seq<Sample>, from: nat, r: (nat, nat))
    requires from < |s|
    ensures var end := RunEnd(s, from);
            r in Runs(s, from) <==> (end > from && r == (from, end)) || r in Runs(s, end + 1)
  {
    var end := RunEnd(s, from);
    RunsFrom(s, from, if end > from then [(from, end)] else [], Runs(s, end + 1));
    InEither(if end > from then [(from, end)] else [], Runs(s, end + 1), r);
  }

  /** One unfolding of the runs, as two parts. */
  lemma RunsFrom(s: seq<Sample>, from: nat, head: seq<(nat, nat)>, rest: seq<(nat, nat)>)
    requires from < |s| && rest == Runs(s, RunEnd(s, from) + 1)
    requires head == if RunEnd(s, from) > from then [(from, RunEnd(s, from))] else []
    ensures Runs(s, from) == head + rest
  {
  }

  lemma InEither(head: seq<(nat, nat)>, rest: seq<(nat, nat)>, r: (nat, nat))
    ensures r in head + rest <==> r in head || r in rest
  {
  }

  lemma {:induction false} RunsStartLater(s: seq<Sample>, from: nat, r: (nat, nat))
    requires from <= |s|
    ensures r in Runs(s, from) ==> from <= r.0 < r.1 < |s|
    decreases |s| - from
  {
    if from < |s| {
      RunsStartLater(s, RunEnd(s, from) + 1, r);
    }
  }

  function Span(s: seq<Sample>, run: (nat, nat)): Interval {
    if run.0 < |s| && run.1 < |s| then Interval(s[run.0].timestampMs, s[run.1].timestampMs) else Interval(0.0, 0.0)
  }

  /** The intervals of some runs, in order. */
  function Spans(s: seq<Sample>, runs: seq<(nat, nat)>): (r: seq<Interval>)
    ensures |r| == |runs|
    ensures forall k :: 0 <= k < |runs| ==> r[k] == Span(s, runs[k])
  {
    seq(|runs|, k requires 0 <= k < |runs| => Span(s, runs[k]))
  }

  lemma NextSpans(s: seq<Sample>, i: nat)
    requires i < |s|
    ensures var j := RunEnd(s, i);
            Spans(s, Runs(s, i))
            == (if j > i then [Interval(s[i].timestampMs, s[j].timestampMs)] else []) + Spans(s, Runs(s, j + 1))
  {
  }

  /** What the loop has written when the stretch that began at `i` ends. */
  lemma StretchEnds(s: seq<Sample>, i: nat, before: seq<Interval>, written: seq<Interval>, rest: seq<Interval>)
      returns (later: seq<Interval>)
    requires i < |s| && rest == Spans(s, Runs(s, i))
    requires written == if RunEnd(s, i) > i then before + [Interval(s[i].timestampMs, s[RunEnd(s, i)].timestampMs)] else before
    ensures later == Spans(s, Runs(s, RunEnd(s, i) + 1))
    ensures before + rest == written + later
  {
    later := Spans(s, Runs(s, RunEnd(s, i) + 1));
    NextSpans(s, i);
    Regroup(before, if RunEnd(s, i) > i then [Interval(s[i].timestampMs, s[RunEnd(s, i)].timestampMs)] else [], later);
  }

  lemma Regroup(a: seq<Interval>, b: seq<Interval>, c: seq<Interval>)
    ensures a + (b + c) == (a + b) + c
  {
  }

  /** The interval loop of `summarizeCounterSeries`. */
  method ZeroCounterIntervals(s: seq<Sample>) returns (intervals: seq<Interval>)
    requires |s| >= 2
    ensures intervals == Spans(s, Runs(s, 0))
  {
    intervals := [];
    var unchangedStart: Option<real> := None;
    ghost var start, rest := 0, Spans(s, Runs(s, 0));
    ghost var all := rest;
    for index := 1 to |s|
      invariant start < index && RunEnd(s, start) >= index - 1
      invariant unchangedStart == if start < index - 1 then Some(s[start].timestampMs) else None
      invariant rest == Spans(s, Runs(s, start)) && all == intervals + rest
    {
      RunEndStep(s, start, index - 1);
      if Still(s, index) {
        if unchangedStart.None? {
          unchangedStart := Some(s[index - 1].timestampMs);
        }
      } else {
        ghost var before := intervals;
        if unchangedStart.Some? {
          intervals := intervals + [Interval(unchangedStart.value, s[index - 1].timestampMs)];
          unchangedStart := None;
        }
        rest := StretchEnds(s, start, before, intervals, rest);
        start := index;
      }
    }
    RunEndStep(s, start, |s| - 1);
    ghost var before := intervals;
    if unchangedStart.Some? {
      intervals := intervals + [Interval(unchangedStart.value, s[|s| - 1].timestampMs)];
    }
    rest := StretchEnds(s, start, before, intervals, rest);
  }

  /** A run that reached `at` goes on exactly while the counter stands still. */
  lemma {:induction false} RunEndStep(s: seq<Sample>, i: nat, at: nat)
    requires i <= at < |s| && RunEnd(s, i) >= at
    ensures at + 1 < |s| && Still(s, at + 1) ==> RunEnd(s, i) >= at + 1
    ensures !(at + 1 < |s| && Still(s, at + 1)) ==> RunEnd(s, i) == at
    decreases at - i
  {
    if i < at {
      RunEndStep(s, i + 1, at);
    }
  }
}

/** What the decoder pool keeps over every interleaving of reservations, runs,
    failures, closes and capability changes. */
module DecoderInvariants {
  import opened Wrappers
  import opened StreamResolution
  import opened DecoderBudget

  // --------------------------------------------- budgets over every run

  ghost predicate Distinct(p: Pool) {
    && (forall i :: 0 <= i < |p.entries| ==> p.entries[i].lease < p.nextLease)
    && (forall i, j :: 0 <= i < j < |p.entries| ==> p.entries[i].lease != p.entries[j].lease)
  }

  predicate Lifecycle(e: Entry) {
    (e.closing != NotClosing ==> e.stopped) && (e.closing == Cleaning ==> !e.busy)
  }

  ghost predicate Sound(p: Pool) {
    Distinct(p) && forall i :: 0 <= i < |p.entries| ==> Lifecycle(p.entries[i])
  }

  /** Both budgets hold under the current hint; the overlay only narrows new entries. */
  predicate Within(p: Pool) {
    TotalSlots(p.entries, None) <= Capacity(p, true) && !Exceeds(p.hint.maxPixelRate, TotalRate(p.entries, None))
  }

  lemma {:induction false} TotalsSkipping(entries: seq<Entry>, i: nat)
    requires i < |entries|
    requires forall j, k :: 0 <= j < k < |entries| ==> entries[j].lease != entries[k].lease
    ensures TotalSlots(entries, None) == TotalSlots(entries, Some(entries[i].lease)) + Slots(entries[i].demand)
    ensures TotalRate(entries, None) == TotalRate(entries, Some(entries[i].lease)) + Rate(entries[i].demand.target)
  {
    var n := |entries| - 1;
    if i == n {
      TotalsWithoutAbsent(entries[..n], entries[i].lease);
    } else {
      TotalsSkipping(entries[..n], i);
    }
  }

  lemma {:induction false} TotalsWithoutAbsent(entries: seq<Entry>, lease: nat)
    requires forall k :: 0 <= k < |entries| ==> entries[k].lease != lease
    ensures TotalSlots(entries, Some(lease)) == TotalSlots(entries, None)
    ensures TotalRate(entries, Some(lease)) == TotalRate(entries, None)
  {
    if entries != [] {
      TotalsWithoutAbsent(entries[..|entries| - 1], lease);
    }
  }

  lemma {:induction false} TotalsOfOthers(entries: seq<Entry>, i: nat, e: Entry)
    requires i < |entries| && e.lease == entries[i].lease
    ensures TotalSlots(entries[i := e], Some(e.lease)) == TotalSlots(entries, Some(e.lease))
    ensures TotalRate(entries[i := e], Some(e.lease)) == TotalRate(entries, Some(e.lease))
  {
    var n := |entries| - 1;
    if i < n {
      assert entries[i := e][..n] == entries[..n][i := e];
      TotalsOfOthers(entries[..n], i, e);
    } else {
      assert entries[i := e][..n] == entries[..n];
    }
  }

  /** Re-charging one lease moves the totals by exactly its own difference. */
  lemma Recharge(p: Pool, lease: nat, e: Entry)
    requires Distinct(p) && Has(p, lease) && e.lease == lease
    ensures var q := With(p, lease, e);
            && Distinct(q)
            && TotalSlots(q.entries, None) == TotalSlots(p.entries, Some(lease)) + Slots(e.demand)
            && TotalRate(q.entries, None) == TotalRate(p.entries, Some(lease)) + Rate(e.demand.target)
            && TotalSlots(p.entries, None) == TotalSlots(p.entries, Some(lease)) + Slots(EntryOf(p, lease).demand)
            && TotalRate(p.entries, None) == TotalRate(p.entries, Some(lease)) + Rate(EntryOf(p, lease).demand.target)
  {
    var i := Find(p.entries, lease);
    TotalsSkipping(p.entries, i);
    TotalsSkipping(p.entries[i := e], i);
    TotalsOfOthers(p.entries, i, e);
  }

  lemma {:induction false} TotalsAfterRemoval(entries: seq<Entry>, i: nat)
    requires i < |entries|
    requires forall j, k :: 0 <= j < k < |entries| ==> entries[j].lease != entries[k].lease
    ensures TotalSlots(entries[..i] + entries[i + 1..], None) == TotalSlots(entries, Some(entries[i].lease))
    ensures TotalRate(entries[..i] + entries[i + 1..], None) == TotalRate(entries, Some(entries[i].lease))
  {
    var n := |entries| - 1;
    if i == n {
      assert entries[..i] + entries[i + 1..] == entries[..n];
      TotalsWithoutAbsent(entries[..n], entries[i].lease);
    } else {
      var rest := entries[..i] + entries[i + 1..];
      assert rest[..n - 1] == entries[..n][..i] + entries[..n][i + 1..];
      assert rest[n - 1] == entries[n];
      TotalsAfterRemoval(entries[..n], i);
    }
  }

  lemma WithKeepsSound(p: Pool, lease: nat, e: Entry)
    requires Sound(p) && Has(p, lease) && e.lease == lease && Lifecycle(e)
    ensures Sound(With(p, lease, e))
  {
  }

  lemma WithoutKeepsSound(p: Pool, lease: nat)
    requires Sound(p) && Has(p, lease)
    ensures Sound(Without(p, lease))
  {
  }

  lemma StepKeepsSound(p: Pool, e: Event)
    requires Sound(p)
    ensures Sound(Step(p, e))
  {
    if OnLease(e) && Effective(p, e) {
      if e.CleanupSucceeded? {
        WithoutKeepsSound(p, e.lease);
      } else {
        assert Lifecycle(EntryOf(p, e.lease));
        WithKeepsSound(p, e.lease, Updated(EntryOf(p, e.lease), e));
      }
    }
  }

  predicate NonNegative(p: Pool) {
    forall i :: 0 <= i < |p.entries| ==> Rate(p.entries[i].demand.target) >= 0.0
  }

  /** A run never reports a negative pixel rate; the launch assertion sees to it. */
  predicate Plausible(e: Event) {
    e.WorkSucceeded? ==> Rate(e.accepted.target) >= 0.0
  }

  lemma PositiveRate(t: Target)
    requires t.width > 0.0 && t.height > 0.0 && t.fps > 0.0
    ensures Rate(t) > 0.0
  {
    ScaleStrict(0.0, t.width, t.height);
    ScaleStrict(0.0, t.width * t.height, t.fps);
  }

  lemma UpdatedIsNonNegative(p: Pool, e: Event)
    requires NonNegative(p) && Plausible(e) && OnLease(e) && Effective(p, e) && !e.CleanupSucceeded?
    ensures Rate(Updated(EntryOf(p, e.lease), e).demand.target) >= 0.0
  {
    assert Rate(EntryOf(p, e.lease).demand.target) >= 0.0;
    if e.StartWork? {
      PositiveRate(Held(EntryOf(p, e.lease).demand, e.demand).target);
    }
  }

  lemma StepKeepsNonNegative(p: Pool, e: Event)
    requires NonNegative(p) && Plausible(e)
    ensures NonNegative(Step(p, e))
  {
    if OnLease(e) && Effective(p, e) && !e.CleanupSucceeded? {
      UpdatedIsNonNegative(p, e);
    } else if e.Reserve? && Fits(p, e.demand, None) {
      PositiveRate(e.demand.target);
    }
  }

  lemma ReserveTotals(p: Pool, d: Demand)
    requires Fits(p, d, None)
    ensures var q := Step(p, Reserve(d));
            && TotalSlots(q.entries, None) == TotalSlots(p.entries, None) + Slots(d)
            && TotalRate(q.entries, None) == TotalRate(p.entries, None) + Rate(d.target)
  {
    var q := Step(p, Reserve(d));
    assert q.entries[..|q.entries| - 1] == p.entries;
  }

  lemma ReleaseTotals(p: Pool, lease: nat)
    requires Sound(p) && Has(p, lease)
    ensures TotalSlots(Without(p, lease).entries, None)
         == TotalSlots(p.entries, None) - Slots(EntryOf(p, lease).demand)
    ensures TotalRate(Without(p, lease).entries, None)
         == TotalRate(p.entries, None) - Rate(EntryOf(p, lease).demand.target)
  {
    TotalsSkipping(p.entries, Find(p.entries, lease));
    TotalsAfterRemoval(p.entries, Find(p.entries, lease));
  }

  predicate NoLarger(q: Pool, p: Pool) {
    && TotalSlots(q.entries, None) <= TotalSlots(p.entries, None)
    && TotalRate(q.entries, None) <= TotalRate(p.entries, None)
  }

  /** A started run is charged within the capacity for existing operations and the
      pixel rate. */
  lemma StartWithin(p: Pool, e: Event)
    requires Sound(p) && e.StartWork? && Effective(p, e)
    ensures Within(Step(p, e)) && TotalSlots(Step(p, e).entries, None) <= DEFAULT_DECODER_CAPACITY
  {
    Recharge(p, e.lease, Updated(EntryOf(p, e.lease), e));
    assert Step(p, e).hint == p.hint;
  }

  /** Every other change of a lease's own entry lowers its charge or keeps it. */
  lemma OtherChangesLower(p: Pool, e: Event)
    requires Sound(p) && OnLease(e) && Effective(p, e) && !e.StartWork? && !e.CleanupSucceeded?
    ensures NoLarger(Step(p, e), p)
  {
    Recharge(p, e.lease, Updated(EntryOf(p, e.lease), e));
    LowersOwnCharge(EntryOf(p, e.lease), e);
  }

  lemma LowersOwnCharge(entry: Entry, e: Event)
    requires OnLease(e) && !e.StartWork? && !e.CleanupSucceeded?
    ensures Slots(Updated(entry, e).demand) <= Slots(entry.demand)
    ensures Rate(Updated(entry, e).demand.target) <= Rate(entry.demand.target)
  {
  }

  lemma ReserveWithin(p: Pool, d: Demand)
    requires Fits(p, d, None)
    ensures Within(Step(p, Reserve(d)))
    ensures TotalSlots(Step(p, Reserve(d)).entries, None) <= DEFAULT_DECODER_CAPACITY
  {
    ReserveTotals(p, d);
    assert Step(p, Reserve(d)).hint == p.hint;
  }

  lemma ReleaseLowers(p: Pool, lease: nat)
    requires Sound(p) && Has(p, lease)
    ensures TotalSlots(Without(p, lease).entries, None) <= TotalSlots(p.entries, None)
    ensures NonNegative(p) ==> NoLarger(Without(p, lease), p)
  {
    ReleaseTotals(p, lease);
    assert NonNegative(p) ==> Rate(p.entries[Find(p.entries, lease)].demand.target) >= 0.0;
  }

  /** A step either leaves both totals no larger than they were, or leaves both
      budgets met: only a change of the native hint can put the pool over a budget,
      and nothing then makes it worse. */
  lemma StepGrowsOnlyWithinBudget(p: Pool, e: Event)
    requires Sound(p) && NonNegative(p)
    ensures NoLarger(Step(p, e), p) || Within(Step(p, e))
  {
    if OnLease(e) {
      if Effective(p, e) {
        if e.StartWork? {
          StartWithin(p, e);
        } else if e.CleanupSucceeded? {
          ReleaseLowers(p, e.lease);
        } else {
          OtherChangesLower(p, e);
        }
      }
    } else if e.Reserve? && Fits(p, e.demand, None) {
      ReserveWithin(p, e.demand);
    }
  }

  lemma WithinIsKept(p: Pool, e: Event)
    requires Sound(p) && NonNegative(p) && Within(p) && !e.SetCapability?
    ensures Within(Step(p, e))
  {
    StepGrowsOnlyWithinBudget(p, e);
    assert Step(p, e).hint == p.hint;
  }

  /** While the native hint is unchanged, no interleaving of reservations, runs,
      failures, closes and overlay changes takes the pool over the hinted instance
      count or the pixel rate. */
  lemma {:induction false} BudgetsHoldOverRuns(p: Pool, events: seq<Event>)
    requires Sound(p) && NonNegative(p) && Within(p)
    requires forall e :: e in events ==> Plausible(e) && !e.SetCapability?
    ensures Within(Run(p, events)) && Sound(Run(p, events)) && NonNegative(Run(p, events))
    decreases events
  {
    if events != [] {
      WithinIsKept(p, events[0]);
      StepKeepsSound(p, events[0]);
      StepKeepsNonNegative(p, events[0]);
      BudgetsHoldOverRuns(Step(p, events[0]), events[1..]);
    }
  }

  lemma StepSlots(p: Pool, e: Event)
    requires Sound(p) && TotalSlots(p.entries, None) <= DEFAULT_DECODER_CAPACITY
    ensures TotalSlots(Step(p, e).entries, None) <= DEFAULT_DECODER_CAPACITY
  {
    if OnLease(e) {
      if Effective(p, e) {
        if e.StartWork? {
          StartWithin(p, e);
        } else if e.CleanupSucceeded? {
          ReleaseLowers(p, e.lease);
        } else {
          OtherChangesLower(p, e);
        }
      }
    } else if e.Reserve? && Fits(p, e.demand, None) {
      ReserveWithin(p, e.demand);
    }
  }

  /** Whatever the hint, the overlay and the native side do, the leases together
      never charge more than four decoder slots. */
  lemma {:induction false} NeverMoreThanFourSlots(p: Pool, events: seq<Event>)
    requires Sound(p) && TotalSlots(p.entries, None) <= DEFAULT_DECODER_CAPACITY
    ensures Sound(Run(p, events)) && TotalSlots(Run(p, events).entries, None) <= DEFAULT_DECODER_CAPACITY
    decreases events
  {
    if events != [] {
      StepSlots(p, events[0]);
      StepKeepsSound(p, events[0]);
      NeverMoreThanFourSlots(Step(p, events[0]), events[1..]);
    }
  }

  // ------------------------------------------------------------ planning

  lemma {:induction false} FirstFitFacts(p: Pool, candidates: seq<Demand>, replacing: Option<nat>)
    ensures var chosen := FirstFit(p, candidates, replacing);
            && (chosen.None? ==> forall d :: d in candidates ==> !Fits(p, d, replacing))
            && (chosen.Some? ==> Fits(p, chosen.value, replacing)
                                 && exists k :: 0 <= k < |candidates| && candidates[k] == chosen.value
                                                && forall j :: 0 <= j < k ==> !Fits(p, candidates[j], replacing))
  {
    if candidates != [] && !Fits(p, candidates[0], replacing) {
      var rest := candidates[1..];
      FirstFitFacts(p, rest, replacing);
      var chosen := FirstFit(p, rest, replacing);
      if chosen.Some? {
        var k :| 0 <= k < |rest| && rest[k] == chosen.value && forall j :: 0 <= j < k ==> !Fits(p, rest[j], replacing);
        assert candidates[k + 1] == chosen.value;
        forall j | 0 <= j < k + 1
          ensures !Fits(p, candidates[j], replacing)
        {
          if j > 0 {
            assert candidates[j] == rest[j - 1];
          }
        }
      }
    }
  }

  lemma {:induction false} LadderDescends(t: Target)
    ensures forall d :: d in Ladder(t) ==>
              !d.split && d.target.fps == t.fps && 0.0 < d.target.width < t.width && 0.0 < d.target.height < t.height
              && ShortSide(d.target) <= 1440.0
    ensures |Ladder(t)| <= StepsLeft(t) <= 3
    decreases StepsLeft(t)
  {
    if DowngradedTarget(t).Some? {
      DowngradeShrinks(t);
      LadderDescends(DowngradedTarget(t).value);
    }
  }

  /** Later steps of the ladder are smaller. */
  lemma {:induction false} LadderIsSorted(t: Target)
    ensures forall i, j :: 0 <= i < j < |Ladder(t)| ==> Ladder(t)[j].target.width < Ladder(t)[i].target.width
    decreases StepsLeft(t)
  {
    if DowngradedTarget(t).Some? {
      var next := DowngradedTarget(t).value;
      DowngradeShrinks(t);
      LadderIsSorted(next);
      LadderDescends(next);
      assert Ladder(t)[1..] == Ladder(next);
      forall i, j | 0 <= i < j < |Ladder(t)|
        ensures Ladder(t)[j].target.width < Ladder(t)[i].target.width
      {
        assert Ladder(t)[j] == Ladder(next)[j - 1];
        if i > 0 {
          assert Ladder(t)[i] == Ladder(next)[i - 1];
        }
      }
    }
  }

  lemma CandidatesAreSorted(d: Demand)
    ensures var candidates := [d] + Ladder(d.target);
            forall i, j :: 0 <= i < j < |candidates| ==> candidates[j].target.width < candidates[i].target.width
  {
    LadderDescends(d.target);
    LadderIsSorted(d.target);
  }

  /** No larger candidate fits than the one `plan` answers. */
  lemma PlanIsTheLargest(p: Pool, d: Demand, c: Demand)
    requires var candidates := [d] + Ladder(d.target);
             var planned := FirstFit(p, candidates, None);
             planned.Some? && c in candidates && c.target.width > planned.value.target.width
    ensures !Fits(p, c, None)
  {
    var candidates := [d] + Ladder(d.target);
    var planned := FirstFit(p, candidates, None);
    FirstFitFacts(p, candidates, None);
    CandidatesAreSorted(d);
    var k :| 0 <= k < |candidates| && candidates[k] == planned.value
             && forall j :: 0 <= j < k ==> !Fits(p, candidates[j], None);
    var i :| 0 <= i < |candidates| && candidates[i] == c;
    assert i < k;
  }

  /** `plan` keeps the demand whenever it fits; otherwise its answer is a strictly
      smaller single-decoder step, and it gives up only when neither the demand nor
      any step fits. What it returns, an immediately following `reserve` admits. */
  lemma PlanIsReservable(p: Pool, d: Demand)
    ensures var planned := FirstFit(p, [d] + Ladder(d.target), None);
            && (Fits(p, d, None) ==> planned == Some(d))
            && (planned.Some? ==>
                  && |Step(p, Reserve(planned.value)).entries| == |p.entries| + 1
                  && (planned.value == d
                      || (!planned.value.split && planned.value.target.fps == d.target.fps
                          && planned.value.target.width < d.target.width
                          && planned.value.target.height < d.target.height
                          && ShortSide(planned.value.target) <= 1440.0)))
            && (planned.None? ==> forall c :: c in [d] + Ladder(d.target) ==> !Fits(p, c, None))
  {
    var candidates := [d] + Ladder(d.target);
    FirstFitFacts(p, candidates, None);
    LadderDescends(d.target);
    var planned := FirstFit(p, candidates, None);
    assert candidates[0] == d;
    if planned.Some? {
      var k :| 0 <= k < |candidates| && candidates[k] == planned.value;
      assert k > 0 ==> candidates[k] == Ladder(d.target)[k - 1];
    }
  }

  /** A target and an instance rate that a single lease may be charged for. */
  predicate Chargeable(p: Pool, d: Demand) {
    && d.target.fps <= 90.0 && d.target.width > 0.0 && d.target.height > 0.0 && d.target.fps > 0.0
    && InstanceFits(p, d)
  }

  /** A run whose demand was planned in place of its own lease's starts on an open idle
      lease exactly when the high-water mark is itself chargeable: it is never refused for
      the slots or the pixels of the others. */
  lemma PlannedRunStartsIff(p: Pool, lease: nat, d: Demand)
    requires Sound(p) && Within(p) && IsOpen(p, lease) && !EntryOf(p, lease).busy
    requires FirstFit(p, [d] + Ladder(d.target), Some(lease)).Some?
    ensures var planned := FirstFit(p, [d] + Ladder(d.target), Some(lease)).value;
            CanStart(p, lease, planned) <==> Chargeable(p, Held(EntryOf(p, lease).demand, planned))
  {
    var i := Find(p.entries, lease);
    FirstFitFacts(p, [d] + Ladder(d.target), Some(lease));
    TotalsSkipping(p.entries, i);
  }

  // ------------------------------------------------ the life of one lease

  /** What one lease's owner and the native side actually did to it. */
  datatype Action = Started | Ended | CloseRequested | CleanupStarted | CleanupDone | CleanupLost

  /** The action a step performs on this lease, if it takes effect. */
  function ActionOf(p: Pool, e: Event, lease: nat): Option<Action> {
    if !OnLease(e) || e.lease != lease || !Effective(p, e) then None
    else
      match e
      case StartWork(l, d) => Some(Started)
      case WorkSucceeded(l, accepted) => Some(Ended)
      case WorkFailed(l) => Some(Ended)
      case RequestClose(l) => Some(CloseRequested)
      case BeginCleanup(l) => Some(CleanupStarted)
      case CleanupSucceeded(l) => Some(CleanupDone)
      case CleanupFailed(l) => Some(CleanupLost)
  }

  function Actions(p: Pool, events: seq<Event>, lease: nat): seq<Action>
    decreases events
  {
    if events == [] then []
    else
      var a := ActionOf(p, events[0], lease);
      (if a.Some? then [a.value] else []) + Actions(Step(p, events[0]), events[1..], lease)
  }

  /** The discipline, written down without the pool: work and cleanup alternate and
      never overlap, no work starts after a close request, one cleanup serves every
      close request until it fails, and the lease is released by a completed
      cleanup only. */
  datatype Discipline = Open | Working | WorkingClosing | Closing | InCleanup | Retryable | Released

  function Allowed(d: Discipline, a: Action): Option<Discipline> {
    match (d, a)
    case (Open, Started) => Some(Working)
    case (Working, Ended) => Some(Open)
    case (Open, CloseRequested) => Some(Closing)
    case (Working, CloseRequested) => Some(WorkingClosing)
    case (WorkingClosing, Ended) => Some(Closing)
    case (Closing, CleanupStarted) => Some(InCleanup)
    case (InCleanup, CleanupDone) => Some(Released)
    case (InCleanup, CleanupLost) => Some(Retryable)
    case (Retryable, CloseRequested) => Some(Closing)
    case _ => None
  }

  predicate Follows(d: Discipline, actions: seq<Action>)
    decreases actions
  {
    actions == [] || (Allowed(d, actions[0]).Some? && Follows(Allowed(d, actions[0]).value, actions[1..]))
  }

  function EntryDiscipline(e: Entry): Discipline {
    if !e.stopped then (if e.busy then Working else Open)
    else if e.busy then WorkingClosing
    else if e.closing == AwaitingWork then Closing
    else if e.closing == Cleaning then InCleanup
    else Retryable
  }

  function DisciplineOf(p: Pool, lease: nat): Discipline {
    if Has(p, lease) then EntryDiscipline(EntryOf(p, lease)) else Released
  }

  /** Work still pending on a stopped lease is awaited by the close that stopped it. */
  predicate Awaited(e: Entry) { e.stopped && e.busy ==> e.closing == AwaitingWork }

  ghost predicate Known(p: Pool, lease: nat) {
    Sound(p) && lease < p.nextLease && (Has(p, lease) ==> Awaited(EntryOf(p, lease)))
  }

  lemma FoundAt(p: Pool, k: nat, lease: nat)
    requires Distinct(p) && k < |p.entries| && p.entries[k].lease == lease
    ensures Find(p.entries, lease) == k
  {
  }

  lemma AbsentStaysAbsent(p: Pool, lease: nat)
    requires forall k :: 0 <= k < |p.entries| ==> p.entries[k].lease != lease
    ensures !Has(p, lease)
  {
  }

  lemma OtherLeaseUntouched(p: Pool, e: Event, lease: nat)
    requires Sound(p) && lease < p.nextLease && (OnLease(e) ==> e.lease != lease)
    ensures Has(Step(p, e), lease) <==> Has(p, lease)
    ensures Has(p, lease) ==> EntryOf(Step(p, e), lease) == EntryOf(p, lease)
  {
    var q := Step(p, e);
    StepKeepsSound(p, e);
    var i := Find(p.entries, lease);
    if OnLease(e) && Effective(p, e) && e.CleanupSucceeded? {
      OthersKeepEntry(p, e.lease, lease);
    } else if i < |p.entries| {
      assert q.entries[i] == p.entries[i];
      FoundAt(q, i, lease);
    } else {
      AbsentStaysAbsent(q, lease);
    }
  }

  lemma OthersKeepEntry(p: Pool, released: nat, lease: nat)
    requires Sound(p) && Has(p, released) && released != lease
    ensures var q := Without(p, released);
            && (Has(q, lease) <==> Has(p, lease))
            && (Has(p, lease) ==> EntryOf(q, lease) == EntryOf(p, lease))
  {
    var q := Without(p, released);
    WithoutKeepsSound(p, released);
    var r, i := Find(p.entries, released), Find(p.entries, lease);
    if i < |p.entries| {
      FoundAt(q, if r < i then i - 1 else i, lease);
    } else {
      AbsentStaysAbsent(q, lease);
    }
  }

  lemma ReleasedIsGone(p: Pool, lease: nat)
    requires Sound(p) && Has(p, lease)
    ensures !Has(Without(p, lease), lease)
  {
    AbsentStaysAbsent(Without(p, lease), lease);
  }

  lemma EntryMoves(entry: Entry, e: Event)
    requires Lifecycle(entry) && Awaited(entry) && OnLease(e) && !e.CleanupSucceeded?
    requires match e
             case StartWork(lease, d) => !entry.stopped && !entry.busy
             case WorkSucceeded(lease, accepted) => entry.busy
             case WorkFailed(lease) => entry.busy
             case RequestClose(lease) => entry.closing == NotClosing
             case BeginCleanup(lease) => entry.closing == AwaitingWork && !entry.busy
             case CleanupFailed(lease) => entry.closing == Cleaning
    ensures Lifecycle(Updated(entry, e)) && Awaited(Updated(entry, e))
    ensures var a := match e
                     case StartWork(lease, d) => Started
                     case WorkSucceeded(lease, accepted) => Ended
                     case WorkFailed(lease) => Ended
                     case RequestClose(lease) => CloseRequested
                     case BeginCleanup(lease) => CleanupStarted
                     case CleanupFailed(lease) => CleanupLost;
            Allowed(EntryDiscipline(entry), a) == Some(EntryDiscipline(Updated(entry, e)))
  {
  }

  lemma OwnLeaseFollows(p: Pool, e: Event)
    requires OnLease(e) && Effective(p, e) && Known(p, e.lease)
    ensures var q := Step(p, e);
            && (Has(q, e.lease) ==> Awaited(EntryOf(q, e.lease)))
            && Allowed(DisciplineOf(p, e.lease), ActionOf(p, e, e.lease).value) == Some(DisciplineOf(q, e.lease))
  {
    assert Lifecycle(EntryOf(p, e.lease));
    if e.CleanupSucceeded? {
      ReleasedIsGone(p, e.lease);
    } else {
      EntryMoves(EntryOf(p, e.lease), e);
      KeepsPosition(p.entries, Find(p.entries, e.lease), Updated(EntryOf(p, e.lease), e), e.lease);
    }
  }

  lemma StepFollows(p: Pool, e: Event, lease: nat)
    requires Known(p, lease)
    ensures Known(Step(p, e), lease)
    ensures var a := ActionOf(p, e, lease);
            if a.Some?
            then Allowed(DisciplineOf(p, lease), a.value) == Some(DisciplineOf(Step(p, e), lease))
            else DisciplineOf(Step(p, e), lease) == DisciplineOf(p, lease)
  {
    StepKeepsSound(p, e);
    if !OnLease(e) || e.lease != lease {
      OtherLeaseUntouched(p, e, lease);
    } else if Effective(p, e) {
      OwnLeaseFollows(p, e);
    }
  }

  /** In every run, what happens to a lease follows the discipline from wherever
      the lease stands. */
  lemma {:induction false} LeasesFollowDiscipline(p: Pool, events: seq<Event>, lease: nat)
    requires Known(p, lease)
    ensures Follows(DisciplineOf(p, lease), Actions(p, events, lease))
    decreases events
  {
    if events != [] {
      StepFollows(p, events[0], lease);
      LeasesFollowDiscipline(Step(p, events[0]), events[1..], lease);
      var a, rest := ActionOf(p, events[0], lease), Actions(Step(p, events[0]), events[1..], lease);
      if a.Some? {
        assert ([a.value] + rest)[1..] == rest;
      } else {
        assert [] + rest == rest;
      }
    }
  }

  /** From the moment a close is requested, no work ever starts on the lease again. */
  lemma {:induction false} NoWorkOnceClosed(p: Pool, events: seq<Event>, lease: nat)
    requires Known(p, lease) && !IsOpen(p, lease)
    ensures !IsOpen(Run(p, events), lease) && Started !in Actions(p, events, lease)
    decreases events
  {
    if events != [] {
      StepFollows(p, events[0], lease);
      ClosedIsForGood(DisciplineOf(p, lease), ActionOf(p, events[0], lease));
      NoWorkOnceClosed(Step(p, events[0]), events[1..], lease);
    }
  }

  lemma ClosedIsForGood(d: Discipline, a: Option<Action>)
    requires d != Open && d != Working
    ensures a.Some? && Allowed(d, a.value).Some? ==>
              a.value != Started && Allowed(d, a.value).value != Open && Allowed(d, a.value).value != Working
  {
  }

  /** Until a cleanup of the lease completes, the lease stays in the table, charged
      at least one slot, however often its cleanup fails. */
  lemma {:induction false} ChargedUntilCleanupCompletes(p: Pool, events: seq<Event>, lease: nat)
    requires Known(p, lease) && Has(p, lease)
    requires CleanupSucceeded(lease) !in events
    ensures Has(Run(p, events), lease) && Known(Run(p, events), lease)
    ensures TotalSlots(Run(p, events).entries, None) >= 1
    decreases events
  {
    if events == [] {
      TotalsSkipping(p.entries, Find(p.entries, lease));
    } else {
      NoSilentRelease(p, events[0], lease);
      ChargedUntilCleanupCompletes(Step(p, events[0]), events[1..], lease);
    }
  }

  lemma NoSilentRelease(p: Pool, e: Event, lease: nat)
    requires Known(p, lease) && Has(p, lease) && e != CleanupSucceeded(lease)
    ensures Has(Step(p, e), lease) && Known(Step(p, e), lease)
  {
    StepFollows(p, e, lease);
    if !OnLease(e) || e.lease != lease {
      OtherLeaseUntouched(p, e, lease);
    } else if Effective(p, e) {
      KeepsPosition(p.entries, Find(p.entries, lease), Updated(EntryOf(p, lease), e), lease);
    }
  }

  /** A failed cleanup keeps the lease charged with the same demand and lets the
      next close request start a fresh cleanup. */
  lemma FailedCleanupIsRetryable(p: Pool, lease: nat)
    requires Known(p, lease) && Has(p, lease) && EntryOf(p, lease).closing == Cleaning
    ensures var failed := Step(p, CleanupFailed(lease));
            var retried := Step(Step(failed, RequestClose(lease)), BeginCleanup(lease));
            && Has(retried, lease) && EntryOf(retried, lease) == EntryOf(p, lease)
            && TotalSlots(failed.entries, None) == TotalSlots(p.entries, None)
            && !IsOpen(failed, lease)
  {
    var e := EntryOf(p, lease);
    assert Lifecycle(e);
    Recharge(p, lease, Updated(e, CleanupFailed(lease)));
    EntryAfter(p, CleanupFailed(lease));
    var failed := Step(p, CleanupFailed(lease));
    EntryAfter(failed, RequestClose(lease));
    EntryAfter(Step(failed, RequestClose(lease)), BeginCleanup(lease));
  }

  lemma EntryAfter(p: Pool, e: Event)
    requires OnLease(e) && Effective(p, e) && !e.CleanupSucceeded?
    ensures Has(Step(p, e), e.lease) && EntryOf(Step(p, e), e.lease) == Updated(EntryOf(p, e.lease), e)
  {
    KeepsPosition(p.entries, Find(p.entries, e.lease), Updated(EntryOf(p, e.lease), e), e.lease);
  }

  // ------------------------------------------- the budgets, written out in numbers

  /** Slots in use: two for each split lease, one for every other. */
  function SlotsInUse(entries: seq<Entry>): nat {
    if entries == [] then 0
    else SlotsInUse(entries[..|entries| - 1]) + if entries[|entries| - 1].demand.split then 2 else 1
  }

  /** Pixels per second in use. */
  function PixelsInUse(entries: seq<Entry>): real {
    if entries == [] then 0.0
    else
      var t := entries[|entries| - 1].demand.target;
      PixelsInUse(entries[..|entries| - 1]) + t.width * t.height * t.fps
  }

  function Others(entries: seq<Entry>, lease: nat): seq<Entry> {
    if entries == [] then []
    else
      var last := entries[|entries| - 1];
      Others(entries[..|entries| - 1], lease) + if last.lease == lease then [] else [last]
  }

  lemma {:induction false} TotalsAreInUse(entries: seq<Entry>)
    ensures TotalSlots(entries, None) == SlotsInUse(entries) && TotalRate(entries, None) == PixelsInUse(entries)
  {
    if entries != [] {
      TotalsAreInUse(entries[..|entries| - 1]);
    }
  }

  lemma {:induction false} TotalsOfTheOthers(entries: seq<Entry>, lease: nat)
    ensures TotalSlots(entries, Some(lease)) == SlotsInUse(Others(entries, lease))
    ensures TotalRate(entries, Some(lease)) == PixelsInUse(Others(entries, lease))
  {
    if entries != [] {
      var before, last := Others(entries[..|entries| - 1], lease), entries[|entries| - 1];
      TotalsOfTheOthers(entries[..|entries| - 1], lease);
      if last.lease == lease {
        assert Others(entries, lease) == before;
      } else {
        assert Others(entries, lease)[..|before|] == before;
      }
    }
  }

  /** At most four slots, at most the hinted instances, and only one without a usable
      hint; for a new lease also at most what the overlay allows. */
  predicate SlotsAllowed(hint: Hint, overlay: Option<int>, slots: int) {
    && slots <= 4
    && (if hint.maxInstances.Some? && hint.maxInstances.value >= 1.0 then slots as real <= hint.maxInstances.value
        else slots <= 1)
    && (overlay.Some? ==> slots <= overlay.value)
  }

  predicate PixelsAllowed(hint: Hint, pixels: real) {
    hint.maxPixelRate.Some? && hint.maxPixelRate.value > 0.0 ==> pixels <= hint.maxPixelRate.value
  }

  /** One demand by itself: positive, at most 90 frames per second, and within the rate
      that one decoder can take. */
  predicate DemandAllowed(hint: Hint, d: Demand) {
    && d.target.width > 0.0 && d.target.height > 0.0 && 0.0 < d.target.fps <= 90.0
    && (hint.maxInstancePixelRate.Some? && hint.maxInstancePixelRate.value > 0.0 ==>
          d.target.width * d.target.height * d.target.fps / (if d.split then 2.0 else 1.0)
            <= hint.maxInstancePixelRate.value)
  }

  function SlotsAsked(d: Demand): nat { if d.split then 2 else 1 }

  function PixelsAsked(d: Demand): real { d.target.width * d.target.height * d.target.fps }

  lemma CapacityInNumbers(p: Pool, existing: bool, slots: int)
    ensures slots <= Capacity(p, existing) <==> SlotsAllowed(p.hint, if existing then None else p.overlay, slots)
  {
  }

  lemma PixelsInNumbers(hint: Hint, pixels: real)
    ensures !Exceeds(hint.maxPixelRate, pixels) <==> PixelsAllowed(hint, pixels)
  {
  }

  /** Fitting, by the part of the demand alone and the two totals. */
  lemma FitsByParts(p: Pool, d: Demand, replacing: Option<nat>, slots: int, pixels: real)
    requires slots == Slots(d) + TotalSlots(p.entries, replacing)
    requires pixels == Rate(d.target) + TotalRate(p.entries, replacing)
    ensures Fits(p, d, replacing) <==>
            && DemandAllowed(p.hint, d)
            && SlotsAllowed(p.hint, if replacing.Some? then None else p.overlay, slots)
            && PixelsAllowed(p.hint, pixels)
  {
    DemandInNumbers(p, d);
    CapacityInNumbers(p, replacing.Some?, slots);
    PixelsInNumbers(p.hint, pixels);
  }

  lemma DemandInNumbers(p: Pool, d: Demand)
    ensures d.target.fps <= 90.0 && d.target.width > 0.0 && d.target.height > 0.0 && d.target.fps > 0.0 && InstanceFits(p, d)
       <==> DemandAllowed(p.hint, d)
  {
  }

  /** A demand is reserved if and only if it is allowed by itself and, with everything in
      use, within the slots, the overlay and the pixel rate; then it is charged as it was
      asked, behind the others, under a new lease. */
  lemma ReserveIff(p: Pool, d: Demand)
    ensures var q := Step(p, Reserve(d));
            if && DemandAllowed(p.hint, d)
               && SlotsAllowed(p.hint, p.overlay, SlotsInUse(p.entries) + SlotsAsked(d))
               && PixelsAllowed(p.hint, PixelsInUse(p.entries) + PixelsAsked(d))
            then q.entries == p.entries + [Entry(p.nextLease, d, false, NotClosing, false)]
                 && q.nextLease == p.nextLease + 1 && q.hint == p.hint && q.overlay == p.overlay
            else q == p
  {
    TotalsAreInUse(p.entries);
    FitsByParts(p, d, None, SlotsInUse(p.entries) + SlotsAsked(d), PixelsInUse(p.entries) + PixelsAsked(d));
  }

  /** The overlay is the cap that was set, rounded down; a cap below one is no cap. */
  lemma OverlayInNumbers(p: Pool, cap: Option<real>, slots: int)
    ensures var q := Step(p, SetOverlay(cap));
            && q.entries == p.entries && q.hint == p.hint
            && if cap.Some? && cap.value >= 1.0
               then q.overlay.Some? && (slots <= q.overlay.value <==> slots as real <= cap.value)
               else q.overlay == None
  {
  }

  /** Charged while work is pending: split if the lease was or the work asks for it, and
      the target of the higher pixel rate. */
  predicate ChargedFor(held: Demand, previous: Demand, next: Demand) {
    && held.split == (previous.split || next.split)
    && held.target == (if PixelsAsked(previous) > PixelsAsked(next) then previous.target else next.target)
  }

  /** Allowed on a lease beside the others; the overlay does not count. */
  predicate AllowedBeside(p: Pool, lease: nat, held: Demand) {
    && DemandAllowed(p.hint, held)
    && SlotsAllowed(p.hint, None, SlotsInUse(Others(p.entries, lease)) + SlotsAsked(held))
    && PixelsAllowed(p.hint, PixelsInUse(Others(p.entries, lease)) + PixelsAsked(held))
  }

  /** Work starts on a lease if and only if the lease is open and idle and its high-water
      mark is allowed beside the others. The lease is then busy and charged for it. */
  lemma RunStartsIff(p: Pool, lease: nat, d: Demand, held: Demand)
    requires Has(p, lease) && ChargedFor(held, EntryOf(p, lease).demand, d)
    ensures var e, q := EntryOf(p, lease), Step(p, StartWork(lease, d));
            if !e.stopped && !e.busy && AllowedBeside(p, lease, held)
            then Has(q, lease) && EntryOf(q, lease) == e.(demand := held, busy := true)
            else q == p
  {
    FitsAmongOthersIff(p, lease, held);
    HeldIsTheCharge(held, EntryOf(p, lease).demand, d);
    StartedRun(p, lease, d);
  }

  lemma StartedRun(p: Pool, lease: nat, d: Demand)
    requires Has(p, lease)
    ensures var e, q := EntryOf(p, lease), Step(p, StartWork(lease, d));
            if CanStart(p, lease, d)
            then Has(q, lease) && EntryOf(q, lease) == e.(demand := Held(e.demand, d), busy := true)
            else q == p
  {
    if CanStart(p, lease, d) {
      EntryAfter(p, StartWork(lease, d));
    }
  }

  lemma HeldIsTheCharge(held: Demand, previous: Demand, next: Demand)
    requires ChargedFor(held, previous, next)
    ensures held == Held(previous, next)
  {
  }

  lemma FitsAmongOthersIff(p: Pool, lease: nat, d: Demand)
    ensures Fits(p, d, Some(lease)) <==> AllowedBeside(p, lease, d)
  {
    var others, rate := Others(p.entries, lease), Rate(d.target);
    assert rate == PixelsAsked(d);
    TotalsOfTheOthers(p.entries, lease);
    FitsByParts(p, d, Some(lease), SlotsInUse(others) + SlotsAsked(d), PixelsInUse(others) + rate);
  }

  /** What a lease is charged for after each other event on it: a success adopts exactly a
      demand that stays within the charge, and nothing else changes the charge. */
  lemma ChargeAfter(p: Pool, e: Event)
    requires OnLease(e) && !e.StartWork? && !e.CleanupSucceeded? && Has(p, e.lease)
    ensures Has(Step(p, e), e.lease)
    ensures var was, now := EntryOf(p, e.lease), EntryOf(Step(p, e), e.lease);
            && (if && e.WorkSucceeded? && was.busy && SlotsAsked(e.accepted) <= SlotsAsked(was.demand)
                   && PixelsAsked(e.accepted) <= PixelsAsked(was.demand)
                then now.demand == e.accepted
                else now.demand == was.demand)
            && (e.RequestClose? && was.closing == NotClosing ==> now.stopped)
            && (e.WorkSucceeded? || e.WorkFailed? ==> !now.busy)
  {
    if Effective(p, e) {
      EntryAfter(p, e);
    }
  }

  /** The ladder of short sides; a step keeps orientation and frame rate. */
  lemma LadderInNumbers(t: Target)
    ensures var short := MinReal(t.width, t.height);
            match DowngradedTarget(t)
            case None => short < 1080.0
            case Some(u) =>
              && short >= 1080.0 && u.fps == t.fps
              && MinReal(u.width, u.height) == (if short >= 2160.0 then 1440.0 else if short >= 1440.0 then 1080.0 else 720.0)
              && (t.width >= t.height ==> u.width >= u.height) && (t.width <= t.height ==> u.width <= u.height)
  {
    if DowngradedTarget(t).Some? {
      DowngradeShrinks(t);
    }
  }

  /** A step keeps the aspect: its long side is the exactly scaled one, rounded down to an
      even number. */
  lemma LadderKeepsAspect(t: Target)
    requires DowngradedTarget(t).Some?
    ensures var u := DowngradedTarget(t).value;
            var exact := MaxReal(t.width, t.height) * (MinReal(u.width, u.height) / MinReal(t.width, t.height));
            MaxReal(u.width, u.height) <= exact < MaxReal(u.width, u.height) + 2.0
  {
    DowngradeShrinks(t);
    NextLongSide(MinReal(t.width, t.height), MaxReal(t.width, t.height), NextShortSide(ShortSide(t)).value);
  }
}

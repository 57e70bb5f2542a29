/** What the streams of a device and the decoder pool keep together, over every
    interleaving of launches, restores, reconfigurations, native answers, windows that
    go away, closes, failed cleanups and their retries. */
module ReservedStreamHistory {
  import opened Wrappers
  import opened DecoderBudget
  import DecoderInvariants
  import opened EncoderExperiments
  import LaunchStream
  import opened ReservedStream

  /** Streams by lease number, and those whose cleanup a refresh retries, in the order
      they were handed over. */
  datatype System = System(pool: Pool, streams: seq<Stream>, abandoned: seq<nat>)

  datatype Happening =
    | CapabilityReported(hint: Hint)
    | OverlaySet(cap: Option<real>)
    | Launched(demand: Demand, launcher: Launcher)
    | OnStream(lease: nat, turn: Turn)
    | Retained(lease: nat)
    | CleanupRetried
    | CloseSettled(lease: nat)

  function Closes(leases: seq<nat>): seq<Event> { seq(|leases|, i requires 0 <= i < |leases| => RequestClose(leases[i])) }

  function Dropped(leases: seq<nat>, lease: nat): seq<nat> {
    if leases == [] then []
    else (if leases[0] == lease then [] else [leases[0]]) + Dropped(leases[1..], lease)
  }

  /** What a happening does to the pool. */
  function PoolEvents(sys: System, h: Happening): seq<Event> {
    match h
    case CapabilityReported(hint) => [SetCapability(hint)]
    case OverlaySet(cap) => [SetOverlay(cap)]
    case Launched(demand, _) => [Reserve(demand)]
    case OnStream(lease, turn) =>
      if lease < |sys.streams| then React(lease, sys.streams[lease], sys.pool, turn).onLease else []
    case Retained(_) => []
    case CleanupRetried => Closes(sys.abandoned)
    case CloseSettled(_) => []
  }

  function StreamsAfter(sys: System, h: Happening): seq<Stream> {
    match h
    case Launched(demand, launcher) =>
      if Fits(sys.pool, demand, None) then sys.streams + [NewStream(launcher)] else sys.streams
    case OnStream(lease, turn) =>
      if lease < |sys.streams|
      then sys.streams[lease := React(lease, sys.streams[lease], sys.pool, turn).stream] else sys.streams
    case _ => sys.streams
  }

  /** A stream is forgotten when one of its closes succeeded. */
  function AbandonedAfter(sys: System, h: Happening): seq<nat> {
    match h
    case Retained(lease) =>
      if lease < |sys.streams| && lease !in sys.abandoned then sys.abandoned + [lease] else sys.abandoned
    case CloseSettled(lease) =>
      if lease < |sys.streams| && !Has(sys.pool, lease) then Dropped(sys.abandoned, lease) else sys.abandoned
    case _ => sys.abandoned
  }

  function Step(sys: System, h: Happening): System {
    System(DecoderBudget.Run(sys.pool, PoolEvents(sys, h)), StreamsAfter(sys, h), AbandonedAfter(sys, h))
  }

  function Run(sys: System, happenings: seq<Happening>): System
    decreases happenings
  {
    if happenings == [] then sys else Run(Step(sys, happenings[0]), happenings[1..])
  }

  function Device(hint: Hint): System { System(EmptyPool(hint), [], []) }

  // ------------------------------------------------------------ the invariant

  /** The reservation covers what the pending run asked for or reported. */
  predicate Covered(e: Entry, s: Stream) {
    match s.work
    case Resting => true
    case Running(demand) => WithinReservation(demand, e.demand)
    case Capturing(accepted) => WithinReservation(accepted, e.demand) && Rate(accepted.target) > 0.0
  }

  predicate Engaged(e: Entry, s: Stream) {
    (e.busy <==> s.work != Resting) && (e.closing == Cleaning <==> s.cleanup != NoCleanup) && Covered(e, s)
  }

  /** Nothing is left of the stream: no renderer, no last preparation, and the launcher
      acknowledged whatever was attempted. */
  predicate Gone(s: Stream) {
    && s.work == Resting && s.cleanup == NoCleanup
    && s.native.renderer == None && s.preparedExperiment !in s.native.prepared
    && (s.attempted ==> Acknowledges(s.launcher))
  }

  predicate NativeSound(s: Stream) {
    && (!s.attempted ==> s.work == Resting && s.native.renderer == None && s.native.prepared == {})
    && (s.generation.Captured? && s.native.renderer.Some? ==> s.native.renderer == s.generation.renderer)
    && (s.work.Running? ==> s.generation == Unknown)
    && (s.work != Resting ==> s.cleanup == NoCleanup)
    && (s.cleanup.RendererClose? && s.native.renderer.Some? ==> s.native.renderer.value == s.cleanup.generation)
    && (s.cleanup == PreparationCancel ==> s.native.renderer == None)
    && (s.cleanup != NoCleanup && s.cleanup != HostStop && s.attempted ==> Acknowledges(s.launcher))
  }

  ghost predicate Owns(p: Pool, lease: nat, s: Stream) {
    && DecoderInvariants.Known(p, lease) && NativeSound(s)
    && if Has(p, lease) then Engaged(EntryOf(p, lease), s) else Gone(s)
  }

  ghost predicate Sound(sys: System) {
    && |sys.streams| == sys.pool.nextLease
    && DecoderInvariants.Sound(sys.pool) && DecoderInvariants.NonNegative(sys.pool)
    && (forall k :: 0 <= k < |sys.streams| ==> Owns(sys.pool, k, sys.streams[k]))
    && (forall k :: 0 <= k < |sys.abandoned| ==> sys.abandoned[k] < |sys.streams|)
  }

  // ------------------------------------------------- one stream, one turn

  lemma OwnEntry(p: Pool, e: Event)
    requires OnLease(e) && Effective(p, e) && DecoderInvariants.Known(p, e.lease)
    ensures var q := DecoderBudget.Step(p, e);
            && DecoderInvariants.Known(q, e.lease) && q.nextLease == p.nextLease
            && (Has(q, e.lease) <==> !e.CleanupSucceeded?)
            && (!e.CleanupSucceeded? ==> EntryOf(q, e.lease) == Updated(EntryOf(p, e.lease), e))
  {
    DecoderInvariants.StepFollows(p, e, e.lease);
    if e.CleanupSucceeded? {
      DecoderInvariants.ReleasedIsGone(p, e.lease);
    } else {
      KeepsPosition(p.entries, Find(p.entries, e.lease), Updated(EntryOf(p, e.lease), e), e.lease);
    }
  }

  /** Turns that leave the lease alone. */
  lemma QuietTurnKeeps(lease: nat, s: Stream, p: Pool, turn: Turn)
    requires Owns(p, lease, s) && React(lease, s, p, turn).onLease == []
    ensures Owns(p, lease, React(lease, s, p, turn).stream)
  {
    if turn.WorkEnds? && Takes(lease, s, p, turn) {
      LaunchStream.ReportedIsReserved(s.work.demand, turn.op);
    }
  }

  /** Turns that change the lease once. */
  lemma SingleTurnKeeps(lease: nat, s: Stream, p: Pool, turn: Turn, e: Event)
    requires Owns(p, lease, s) && React(lease, s, p, turn).onLease == [e] && !turn.CloseCalled? && !turn.CleanupBegins?
    ensures OnLease(e) && e.lease == lease && Effective(p, e)
    ensures e.WorkSucceeded? ==> Rate(e.accepted.target) > 0.0 && WithinReservation(e.accepted, EntryOf(p, lease).demand)
    ensures Owns(DecoderBudget.Step(p, e), lease, React(lease, s, p, turn).stream)
  {
    var t := React(lease, s, p, turn).stream;
    assert DecoderInvariants.Lifecycle(EntryOf(p, lease)) by {
      assert p.entries[Find(p.entries, lease)] == EntryOf(p, lease);
    }
    assert Takes(lease, s, p, turn);
    match turn
    case RunStarts(demand) =>
      assert e == StartWork(lease, demand);
      OwnEntry(p, e);
    case WorkEnds(op) =>
      var reported := LaunchStream.Reported(s.work.demand, op);
      if reported.Some? {
        LaunchStream.ReportedIsReserved(s.work.demand, op);
      }
      OwnEntry(p, e);
    case GenerationCaptured(ok) =>
      OwnEntry(p, e);
    case PreparationGone(ok) =>
      OwnEntry(p, e);
    case HostStopSettles =>
      assert e == CleanupFailed(lease);
      OwnEntry(p, e);
    case GenerationReported(ok) =>
      assert e == CleanupFailed(lease);
      OwnEntry(p, e);
    case RendererClosed(ok) =>
      assert e == CleanupFailed(lease);
      OwnEntry(p, e);
    case _ =>
      assert false;
  }

  lemma CloseKeeps(lease: nat, s: Stream, p: Pool)
    requires Owns(p, lease, s)
    ensures Owns(DecoderBudget.Step(p, RequestClose(lease)), lease, s)
  {
    if Effective(p, RequestClose(lease)) {
      OwnEntry(p, RequestClose(lease));
    }
  }

  /** The pending work is over and the cleanup begins; it may fail at once. */
  lemma BeginKeeps(lease: nat, s: Stream, p: Pool)
    requires Owns(p, lease, s) && Takes(lease, s, p, CleanupBegins)
    ensures var effect := React(lease, s, p, CleanupBegins);
            Owns(DecoderBudget.Run(p, effect.onLease), lease, effect.stream)
  {
    var begun := DecoderBudget.Step(p, BeginCleanup(lease));
    OwnEntry(p, BeginCleanup(lease));
    var effect := React(lease, s, p, CleanupBegins);
    if s.latest.None? && !Acknowledges(s.launcher) && s.attempted {
      TwoOnLease(p, BeginCleanup(lease), CleanupFailed(lease));
      OwnEntry(begun, CleanupFailed(lease));
      assert effect.onLease == [BeginCleanup(lease), CleanupFailed(lease)];
    } else {
      OneOnLease(p, BeginCleanup(lease));
      assert effect.onLease == [BeginCleanup(lease)];
    }
  }

  lemma TurnKeeps(lease: nat, s: Stream, p: Pool, turn: Turn)
    requires Owns(p, lease, s)
    ensures var effect := React(lease, s, p, turn);
            && Owns(DecoderBudget.Run(p, effect.onLease), lease, effect.stream)
            && (forall e :: e in effect.onLease ==>
                  OnLease(e) && e.lease == lease && (e.WorkSucceeded? ==> Rate(e.accepted.target) > 0.0))
  {
    var effect := React(lease, s, p, turn);
    if turn.CleanupBegins? && Takes(lease, s, p, turn) {
      BeginKeeps(lease, s, p);
    } else if turn.CloseCalled? {
      CloseKeeps(lease, s, p);
      OneOnLease(p, RequestClose(lease));
    } else if effect.onLease == [] {
      QuietTurnKeeps(lease, s, p, turn);
      OneOnLease(p, RequestClose(lease));
    } else {
      OnlyOneEvent(lease, s, p, turn);
      SingleTurnKeeps(lease, s, p, turn, effect.onLease[0]);
      OneOnLease(p, effect.onLease[0]);
    }
  }

  lemma OnlyOneEvent(lease: nat, s: Stream, p: Pool, turn: Turn)
    requires React(lease, s, p, turn).onLease != [] && !turn.CloseCalled?
    requires turn.CleanupBegins? ==> !Takes(lease, s, p, turn)
    ensures var events := React(lease, s, p, turn).onLease;
            !turn.CleanupBegins? && events == [events[0]]
  {
  }

  // ---------------------------------------------------------- the whole device

  lemma {:induction false} PoolStaysSound(p: Pool, events: seq<Event>)
    requires DecoderInvariants.Sound(p) && DecoderInvariants.NonNegative(p)
    requires forall e :: e in events ==> DecoderInvariants.Plausible(e)
    ensures var q := DecoderBudget.Run(p, events);
            && DecoderInvariants.Sound(q) && DecoderInvariants.NonNegative(q)
            && ((forall e :: e in events ==> !e.Reserve?) ==> q.nextLease == p.nextLease)
    decreases events
  {
    if events != [] {
      DecoderInvariants.StepKeepsSound(p, events[0]);
      DecoderInvariants.StepKeepsNonNegative(p, events[0]);
      PoolStaysSound(DecoderBudget.Step(p, events[0]), events[1..]);
    }
  }

  /** What happens to other leases leaves a stream as it is. */
  lemma {:induction false} OthersKeep(p: Pool, events: seq<Event>, lease: nat, s: Stream)
    requires Owns(p, lease, s)
    requires forall e :: e in events ==> OnLease(e) ==> e.lease != lease
    ensures Owns(DecoderBudget.Run(p, events), lease, s)
    decreases events
  {
    if events != [] {
      var e := events[0];
      DecoderInvariants.StepFollows(p, e, lease);
      DecoderInvariants.OtherLeaseUntouched(p, e, lease);
      OthersKeep(DecoderBudget.Step(p, e), events[1..], lease, s);
    }
  }

  lemma {:induction false} ClosesKeep(p: Pool, leases: seq<nat>, lease: nat, s: Stream)
    requires Owns(p, lease, s)
    ensures Owns(DecoderBudget.Run(p, Closes(leases)), lease, s)
    decreases leases
  {
    if leases != [] {
      assert Closes(leases)[1..] == Closes(leases[1..]);
      if leases[0] == lease {
        CloseKeeps(lease, s, p);
      } else {
        DecoderInvariants.StepFollows(p, RequestClose(leases[0]), lease);
        DecoderInvariants.OtherLeaseUntouched(p, RequestClose(leases[0]), lease);
      }
      ClosesKeep(DecoderBudget.Step(p, RequestClose(leases[0])), leases[1..], lease, s);
    }
  }

  lemma HappeningIsPlausible(sys: System, h: Happening)
    requires Sound(sys)
    ensures forall e :: e in PoolEvents(sys, h) ==> DecoderInvariants.Plausible(e)
  {
    if h.OnStream? && h.lease < |sys.streams| {
      TurnKeeps(h.lease, sys.streams[h.lease], sys.pool, h.turn);
    }
  }

  lemma LaunchKeeps(sys: System, demand: Demand, launcher: Launcher)
    requires Sound(sys)
    ensures Sound(Step(sys, Launched(demand, launcher)))
  {
    var next := Step(sys, Launched(demand, launcher));
    HappeningIsPlausible(sys, Launched(demand, launcher));
    PoolStaysSound(sys.pool, [Reserve(demand)]);
    OneOnLease(sys.pool, Reserve(demand));
    forall k | 0 <= k < |sys.streams|
      ensures Owns(next.pool, k, sys.streams[k])
    {
      OthersKeep(sys.pool, [Reserve(demand)], k, sys.streams[k]);
    }
    if Fits(sys.pool, demand, None) {
      NewStreamIsOwned(sys.pool, demand, launcher);
    }
  }

  lemma NewStreamIsOwned(p: Pool, demand: Demand, launcher: Launcher)
    requires DecoderInvariants.Sound(p) && Fits(p, demand, None)
    ensures Owns(DecoderBudget.Step(p, Reserve(demand)), p.nextLease, NewStream(launcher))
  {
    var q := DecoderBudget.Step(p, Reserve(demand));
    DecoderInvariants.StepKeepsSound(p, Reserve(demand));
    DecoderInvariants.FoundAt(q, |p.entries|, p.nextLease);
  }

  lemma StreamTurnKeeps(sys: System, lease: nat, turn: Turn)
    requires Sound(sys) && lease < |sys.streams|
    ensures Sound(Step(sys, OnStream(lease, turn)))
  {
    var next := Step(sys, OnStream(lease, turn));
    var events := PoolEvents(sys, OnStream(lease, turn));
    TurnKeeps(lease, sys.streams[lease], sys.pool, turn);
    PoolStaysSound(sys.pool, events);
    forall k | 0 <= k < |sys.streams|
      ensures Owns(next.pool, k, next.streams[k])
    {
      if k != lease {
        OthersKeep(sys.pool, events, k, sys.streams[k]);
      }
    }
  }

  lemma {:induction false} DroppedFrom(leases: seq<nat>, lease: nat)
    ensures forall k :: k in Dropped(leases, lease) <==> k in leases && k != lease
    decreases leases
  {
    if leases != [] {
      DroppedFrom(leases[1..], lease);
      assert leases == [leases[0]] + leases[1..];
    }
  }

  lemma HappeningKeeps(sys: System, h: Happening)
    requires Sound(sys)
    ensures Sound(Step(sys, h))
  {
    HappeningIsPlausible(sys, h);
    PoolStaysSound(sys.pool, PoolEvents(sys, h));
    match h
    case Launched(demand, launcher) => LaunchKeeps(sys, demand, launcher);
    case OnStream(lease, turn) =>
      if lease < |sys.streams| {
        StreamTurnKeeps(sys, lease, turn);
      }
    case CloseSettled(lease) =>
      DroppedFrom(sys.abandoned, lease);
      var next := Step(sys, h);
      forall k | 0 <= k < |next.abandoned|
        ensures next.abandoned[k] < |next.streams|
      {
        assert next.abandoned[k] in sys.abandoned;
      }
    case CleanupRetried =>
      forall k | 0 <= k < |sys.streams|
        ensures Owns(Step(sys, h).pool, k, sys.streams[k])
      {
        ClosesKeep(sys.pool, sys.abandoned, k, sys.streams[k]);
      }
    case _ =>
      forall k | 0 <= k < |sys.streams|
        ensures Owns(Step(sys, h).pool, k, sys.streams[k])
      {
        OthersKeep(sys.pool, PoolEvents(sys, h), k, sys.streams[k]);
      }
  }

  lemma {:induction false} RunKeepsSound(sys: System, happenings: seq<Happening>)
    requires Sound(sys)
    ensures Sound(Run(sys, happenings))
    decreases happenings
  {
    if happenings != [] {
      HappeningKeeps(sys, happenings[0]);
      RunKeepsSound(Step(sys, happenings[0]), happenings[1..]);
    }
  }

  // ------------------------------------------------------------- main results

  /** Whatever the Hosts, the launchers and the user do: while the hint is unchanged
      the charged slots stay within the hinted instances and the total pixel rate
      within the limit. Nothing is assumed of what the native side reports, because a
      run accepts only what the launch asserted. */
  lemma {:induction false} BudgetsAlwaysHold(sys: System, happenings: seq<Happening>)
    requires Sound(sys) && DecoderInvariants.Within(sys.pool)
    requires forall h :: h in happenings ==> !h.CapabilityReported?
    ensures DecoderInvariants.Within(Run(sys, happenings).pool)
    decreases happenings
  {
    if happenings != [] {
      var h := happenings[0];
      HappeningIsPlausible(sys, h);
      HappeningKeeps(sys, h);
      if h.OnStream? && h.lease < |sys.streams| {
        TurnKeeps(h.lease, sys.streams[h.lease], sys.pool, h.turn);
      }
      DecoderInvariants.BudgetsHoldOverRuns(sys.pool, PoolEvents(sys, h));
      BudgetsAlwaysHold(Step(sys, h), happenings[1..]);
    }
  }

  lemma {:induction false} HintStays(p: Pool, events: seq<Event>)
    requires forall e :: e in events ==> !e.SetCapability?
    ensures DecoderBudget.Run(p, events).hint == p.hint
    decreases events
  {
    if events != [] {
      HintStays(DecoderBudget.Step(p, events[0]), events[1..]);
    }
  }

  lemma NoOtherHint(sys: System, h: Happening)
    requires !h.CapabilityReported?
    ensures forall e :: e in PoolEvents(sys, h) ==> !e.SetCapability?
  {
  }

  lemma {:induction false} DeviceHintStays(sys: System, happenings: seq<Happening>)
    requires forall h :: h in happenings ==> !h.CapabilityReported?
    ensures Run(sys, happenings).pool.hint == sys.pool.hint
    decreases happenings
  {
    if happenings != [] {
      NoOtherHint(sys, happenings[0]);
      HintStays(sys.pool, PoolEvents(sys, happenings[0]));
      DeviceHintStays(Step(sys, happenings[0]), happenings[1..]);
    }
  }

  /** The same in numbers, from the start of a device: in every run with an unchanged hint
      the slots in use are at most four and at most the hinted instances, only one
      without a usable hint, and the pixels per second at most a positive hinted rate. */
  lemma BudgetsInNumbers(hint: Hint, happenings: seq<Happening>)
    requires forall h :: h in happenings ==> !h.CapabilityReported?
    ensures var entries := Run(Device(hint), happenings).pool.entries;
            var slots := DecoderInvariants.SlotsInUse(entries);
            && slots <= 4
            && (hint.maxInstances.Some? && hint.maxInstances.value >= 1.0 ==> slots as real <= hint.maxInstances.value)
            && (hint.maxInstances.None? || hint.maxInstances.value < 1.0 ==> slots <= 1)
            && (hint.maxPixelRate.Some? && hint.maxPixelRate.value > 0.0 ==>
                  DecoderInvariants.PixelsInUse(entries) <= hint.maxPixelRate.value)
  {
    var p := Run(Device(hint), happenings).pool;
    BudgetsAlwaysHold(Device(hint), happenings);
    DeviceHintStays(Device(hint), happenings);
    DecoderInvariants.TotalsAreInUse(p.entries);
    DecoderInvariants.CapacityInNumbers(p, true, DecoderInvariants.SlotsInUse(p.entries));
    DecoderInvariants.PixelsInNumbers(p.hint, DecoderInvariants.PixelsInUse(p.entries));
  }

  /** No run ends because the native side exceeded its reservation: when a run
      succeeds, its charge becomes exactly what it reported. */
  lemma AcceptedBecomesTheCharge(sys: System, lease: nat, turn: Turn, accepted: Demand)
    requires Sound(sys) && lease < |sys.streams|
    requires WorkSucceeded(lease, accepted) in React(lease, sys.streams[lease], sys.pool, turn).onLease
    ensures var next := Step(sys, OnStream(lease, turn)).pool;
            && Has(next, lease) && EntryOf(next, lease).demand == accepted && !EntryOf(next, lease).busy
            && WithinReservation(accepted, EntryOf(sys.pool, lease).demand)
  {
    var s := sys.streams[lease];
    var e := WorkSucceeded(lease, accepted);
    var onLease := React(lease, s, sys.pool, turn).onLease;
    assert !turn.CloseCalled? && !turn.CleanupBegins?;
    assert onLease == [e];
    SingleTurnKeeps(lease, s, sys.pool, turn, e);
    OwnEntry(sys.pool, e);
    OneOnLease(sys.pool, e);
  }

  /** In every run a lease that has left the pool left nothing behind: its renderer is
      gone, its last preparation was cancelled, and if work was ever attempted its
      launcher could acknowledge that. */
  lemma ReleasedLeavesNothing(hint: Hint, happenings: seq<Happening>, lease: nat)
    ensures var sys := Run(Device(hint), happenings);
            lease < |sys.streams| && !Has(sys.pool, lease) ==>
              var s := sys.streams[lease];
              && s.native.renderer == None && s.preparedExperiment !in s.native.prepared
              && (s.attempted ==> Acknowledges(s.launcher))
  {
    RunKeepsSound(Device(hint), happenings);
  }

  lemma LaunchersStay(sys: System, h: Happening, lease: nat)
    requires lease < |sys.streams|
    ensures lease < |Step(sys, h).streams| && Step(sys, h).streams[lease].launcher == sys.streams[lease].launcher
    ensures sys.streams[lease].attempted ==> Step(sys, h).streams[lease].attempted
  {
  }

  /** Work attempted through a launcher that cannot acknowledge a cleanup keeps its
      lease charged for good. */
  lemma {:induction false} UnacknowledgeableStaysCharged(sys: System, happenings: seq<Happening>, lease: nat)
    requires Sound(sys) && lease < |sys.streams|
    requires sys.streams[lease].attempted && !Acknowledges(sys.streams[lease].launcher)
    ensures Has(Run(sys, happenings).pool, lease)
    decreases happenings
  {
    assert Owns(sys.pool, lease, sys.streams[lease]);
    if happenings != [] {
      HappeningKeeps(sys, happenings[0]);
      LaunchersStay(sys, happenings[0], lease);
      UnacknowledgeableStaysCharged(Step(sys, happenings[0]), happenings[1..], lease);
    }
  }

  /** A lease leaves the pool in one turn only: the acknowledged cancellation of its
      last preparation, at the end of its cleanup. */
  lemma ReleasedOnlyByItsCleanup(sys: System, h: Happening, lease: nat)
    requires Sound(sys) && lease < |sys.streams|
    requires Has(sys.pool, lease) && !Has(Step(sys, h).pool, lease)
    ensures h == OnStream(lease, PreparationGone(true)) && sys.streams[lease].cleanup == PreparationCancel
  {
    var events := PoolEvents(sys, h);
    assert Owns(sys.pool, lease, sys.streams[lease]);
    if CleanupSucceeded(lease) !in events {
      DecoderInvariants.ChargedUntilCleanupCompletes(sys.pool, events, lease);
      assert false;
    }
    assert h.OnStream?;
    TurnKeeps(h.lease, sys.streams[h.lease], sys.pool, h.turn);
  }

  lemma ClosedTurnIsQuiet(lease: nat, s: Stream, p: Pool, turn: Turn)
    requires !IsOpen(p, lease)
    ensures var t := React(lease, s, p, turn).stream;
            t.calls == s.calls && t.native.prepared <= s.native.prepared
  {
  }

  lemma ClosedStaysQuiet(sys: System, h: Happening, lease: nat)
    requires Sound(sys) && lease < |sys.streams| && !IsOpen(sys.pool, lease)
    ensures !IsOpen(Step(sys, h).pool, lease)
    ensures var s, t := sys.streams[lease], Step(sys, h).streams[lease];
            t.calls == s.calls && t.native.prepared <= s.native.prepared
  {
    assert Owns(sys.pool, lease, sys.streams[lease]);
    DecoderInvariants.NoWorkOnceClosed(sys.pool, PoolEvents(sys, h), lease);
    if h.OnStream? && h.lease == lease {
      ClosedTurnIsQuiet(lease, sys.streams[lease], sys.pool, h.turn);
    }
  }

  /** From the moment a close is requested the stream asks nothing more of the
      launcher than to end: no preparation, no window, no new run, in any run. */
  lemma {:induction false} NoNativeCallOnceClosed(sys: System, happenings: seq<Happening>, lease: nat)
    requires Sound(sys) && lease < |sys.streams| && !IsOpen(sys.pool, lease)
    ensures var last := Run(sys, happenings);
            && lease < |last.streams| && !IsOpen(last.pool, lease)
            && last.streams[lease].calls == sys.streams[lease].calls
            && last.streams[lease].native.prepared <= sys.streams[lease].native.prepared
    decreases happenings
  {
    if happenings != [] {
      ClosedStaysQuiet(sys, happenings[0], lease);
      HappeningKeeps(sys, happenings[0]);
      LaunchersStay(sys, happenings[0], lease);
      NoNativeCallOnceClosed(Step(sys, happenings[0]), happenings[1..], lease);
    }
  }

  /** A stream handed over for retry stays in the queue until its lease is released. */
  lemma {:induction false} RetainedUntilReleased(sys: System, happenings: seq<Happening>, lease: nat)
    requires Sound(sys) && lease in sys.abandoned
    ensures lease in Run(sys, happenings).abandoned || !Has(Run(sys, happenings).pool, lease)
    decreases happenings
  {
    if happenings != [] {
      var h := happenings[0];
      HappeningKeeps(sys, h);
      if h.CloseSettled? {
        DroppedFrom(sys.abandoned, h.lease);
      }
      if lease in Step(sys, h).abandoned {
        RetainedUntilReleased(Step(sys, h), happenings[1..], lease);
      } else {
        assert !Has(sys.pool, lease);
        StaysReleased(Step(sys, h), happenings[1..], lease);
      }
    }
  }

  lemma {:induction false} PoolKeepsReleased(p: Pool, events: seq<Event>, lease: nat)
    requires DecoderInvariants.Known(p, lease) && !Has(p, lease)
    ensures !Has(DecoderBudget.Run(p, events), lease)
    decreases events
  {
    if events != [] {
      var e := events[0];
      DecoderInvariants.StepFollows(p, e, lease);
      if !OnLease(e) || e.lease != lease {
        DecoderInvariants.OtherLeaseUntouched(p, e, lease);
      }
      PoolKeepsReleased(DecoderBudget.Step(p, e), events[1..], lease);
    }
  }

  lemma {:induction false} StaysReleased(sys: System, happenings: seq<Happening>, lease: nat)
    requires Sound(sys) && lease < |sys.streams| && !Has(sys.pool, lease)
    ensures !Has(Run(sys, happenings).pool, lease)
    decreases happenings
  {
    if happenings != [] {
      assert Owns(sys.pool, lease, sys.streams[lease]);
      PoolKeepsReleased(sys.pool, PoolEvents(sys, happenings[0]), lease);
      HappeningKeeps(sys, happenings[0]);
      LaunchersStay(sys, happenings[0], lease);
      StaysReleased(Step(sys, happenings[0]), happenings[1..], lease);
    }
  }

  /** Being closed: a cleanup of the lease is pending or running. */
  predicate BeingClosed(p: Pool, lease: nat) { Has(p, lease) ==> EntryOf(p, lease).closing != NotClosing }

  lemma RequestCloses(p: Pool, other: nat, lease: nat)
    requires DecoderInvariants.Known(p, lease)
    ensures var q := DecoderBudget.Step(p, RequestClose(other));
            DecoderInvariants.Known(q, lease) && (other == lease || BeingClosed(p, lease) ==> BeingClosed(q, lease))
  {
    DecoderInvariants.StepFollows(p, RequestClose(other), lease);
    if other != lease {
      DecoderInvariants.OtherLeaseUntouched(p, RequestClose(other), lease);
    } else if Effective(p, RequestClose(lease)) {
      OwnEntry(p, RequestClose(lease));
    }
  }

  lemma {:induction false} ClosesReach(p: Pool, leases: seq<nat>, lease: nat)
    requires DecoderInvariants.Known(p, lease)
    ensures lease in leases || BeingClosed(p, lease) ==> BeingClosed(DecoderBudget.Run(p, Closes(leases)), lease)
    decreases leases
  {
    if leases != [] {
      assert Closes(leases)[1..] == Closes(leases[1..]);
      assert leases == [leases[0]] + leases[1..];
      RequestCloses(p, leases[0], lease);
      ClosesReach(DecoderBudget.Step(p, RequestClose(leases[0])), leases[1..], lease);
    }
  }

  /** A refresh starts a cleanup of every abandoned stream that still holds its lease. */
  lemma RetryReachesEveryAbandoned(sys: System, lease: nat)
    requires Sound(sys) && lease in sys.abandoned
    ensures BeingClosed(Step(sys, CleanupRetried).pool, lease)
  {
    assert Owns(sys.pool, lease, sys.streams[lease]);
    ClosesReach(sys.pool, sys.abandoned, lease);
  }

  // ------------------------------------------- what a run leaves to the cleanup

  /** What each turn of a run notes for the cleanup, field by field. A preparation on an
      open stream is remembered as the last one, and nothing else changes which one that
      is; a window appears as the renderer; the work publishes its session; and the
      captured generation is the renderer's. */
  lemma RunLeavesToTheCleanup(lease: nat, s: Stream, p: Pool, turn: Turn)
    requires Has(p, lease)
    ensures var t := React(lease, s, p, turn).stream;
            && (if turn.PrepareCalled? && s.work.Running? && !EntryOf(p, lease).stopped
                then t.preparedExperiment == turn.experiment && turn.experiment in t.native.prepared
                     && t.calls == s.calls + 1
                else t.preparedExperiment == s.preparedExperiment)
            && (turn.WindowAppears? && s.work.Running? && s.native.opening ==>
                  t.native.renderer == Some(turn.generation))
            && (turn.GenerationCaptured? && turn.ok && s.work.Capturing? ==>
                  t.generation == Captured(s.native.renderer) && t.work == Resting)
            && (turn.WorkEnds? && s.work.Running? && LaunchStream.Reported(s.work.demand, turn.op).Some? ==>
                  t.latest == Some(LaunchStream.Reported(s.work.demand, turn.op).value.session))
  {
  }

  /** A cleanup asks the Host to stop exactly a published session, then closes the
      renderer it knows or asks for, and cancels the last preparation. */
  lemma CleanupGoesOn(lease: nat, s: Stream, p: Pool, turn: Turn)
    requires Acknowledges(s.launcher) && Has(p, lease)
    ensures var t := React(lease, s, p, turn).stream;
            && (turn.CleanupBegins? && EntryOf(p, lease).closing == AwaitingWork && !EntryOf(p, lease).busy ==>
                  (t.cleanup == HostStop <==> s.latest.Some?))
            && (turn.HostStopSettles? && s.cleanup == HostStop ==>
                  t.cleanup == (if s.generation == Unknown then GenerationReport
                                else if s.generation.renderer.Some? then RendererClose(s.generation.renderer.value)
                                else PreparationCancel))
            && (turn.GenerationReported? && turn.ok && s.cleanup == GenerationReport ==>
                  t.cleanup == if s.native.renderer.Some? then RendererClose(s.native.renderer.value)
                               else PreparationCancel)
            && (turn.RendererClosed? && turn.ok && s.cleanup.RendererClose? ==> t.cleanup == PreparationCancel)
            && (turn.PreparationGone? && turn.ok && s.cleanup == PreparationCancel ==>
                  s.preparedExperiment !in t.native.prepared && React(lease, s, p, turn).onLease == [CleanupSucceeded(lease)])
  {
  }

  // ------------------------------------------------------- a retry succeeds

  function Turns(lease: nat, o: Owned, turns: seq<Turn>): Owned
    decreases turns
  {
    if turns == [] then o else Turns(lease, Take(lease, o, turns[0]), turns[1..])
  }

  /** Every answer a cleanup may wait for, all of them good; those it does not wait for
      change nothing. */
  const GoodAnswers := [HostStopSettles, GenerationReported(true), RendererClosed(true), PreparationGone(true)]

  lemma FourTurns(lease: nat, o: Owned, a: Turn, b: Turn, c: Turn, d: Turn)
    ensures Turns(lease, o, [a, b, c, d]) == Take(lease, Take(lease, Take(lease, Take(lease, o, a), b), c), d)
  {
    var o1 := Take(lease, o, a);
    var o2 := Take(lease, o1, b);
    var o3 := Take(lease, o2, c);
    assert [a, b, c, d][1..] == [b, c, d] && [b, c, d][1..] == [c, d] && [c, d][1..] == [d] && [d][1..] == [];
    assert Turns(lease, o3, [d]) == Take(lease, o3, d);
    assert Turns(lease, o2, [c, d]) == Turns(lease, o3, [d]);
    assert Turns(lease, o1, [b, c, d]) == Turns(lease, o2, [c, d]);
  }

  /** The answers before the last bring any cleanup to the last preparation. */
  lemma GoodAnswersReachTheEnd(lease: nat, s: Stream, p: Pool)
    requires NativeSound(s) && s.cleanup != NoCleanup && Acknowledges(s.launcher)
    ensures var o := Take(lease, Take(lease, Take(lease, Owned(s, p), HostStopSettles), GenerationReported(true)),
                          RendererClosed(true));
            o.pool == p && o.stream.cleanup == PreparationCancel
  {
    var s1 := React(lease, s, p, HostStopSettles).stream;
    assert Take(lease, Owned(s, p), HostStopSettles) == Owned(s1, p);
    var s2 := React(lease, s1, p, GenerationReported(true)).stream;
    assert Take(lease, Owned(s1, p), GenerationReported(true)) == Owned(s2, p);
  }

  lemma GoodAnswersRelease(lease: nat, s: Stream, p: Pool)
    requires Owns(p, lease, s) && Has(p, lease) && EntryOf(p, lease).closing == Cleaning
    requires Acknowledges(s.launcher)
    ensures !Has(Turns(lease, Owned(s, p), GoodAnswers).pool, lease)
  {
    GoodAnswersReachTheEnd(lease, s, p);
    FourTurns(lease, Owned(s, p), HostStopSettles, GenerationReported(true), RendererClosed(true), PreparationGone(true));
    OneOnLease(p, CleanupSucceeded(lease));
    OwnEntry(p, CleanupSucceeded(lease));
  }

  lemma CloseAsks(lease: nat, s: Stream, p: Pool)
    requires Owns(p, lease, s) && Has(p, lease) && s.work == Resting && s.cleanup == NoCleanup
    ensures var o := Take(lease, Owned(s, p), CloseCalled);
            && o.stream == s && Owns(o.pool, lease, s) && Has(o.pool, lease)
            && EntryOf(o.pool, lease).closing == AwaitingWork && !EntryOf(o.pool, lease).busy
  {
    OneOnLease(p, RequestClose(lease));
    CloseKeeps(lease, s, p);
    if Effective(p, RequestClose(lease)) {
      OwnEntry(p, RequestClose(lease));
    }
  }

  lemma CleanupStarts(lease: nat, s: Stream, p: Pool)
    requires Owns(p, lease, s) && Has(p, lease) && Acknowledges(s.launcher)
    requires EntryOf(p, lease).closing == AwaitingWork && !EntryOf(p, lease).busy
    ensures var o := Take(lease, Owned(s, p), CleanupBegins);
            && Owns(o.pool, lease, o.stream) && Has(o.pool, lease) && EntryOf(o.pool, lease).closing == Cleaning
            && o.stream.launcher == s.launcher
  {
    BeginKeeps(lease, s, p);
    OneOnLease(p, BeginCleanup(lease));
    OwnEntry(p, BeginCleanup(lease));
    assert React(lease, s, p, CleanupBegins).onLease == [BeginCleanup(lease)];
  }

  /** However often cleanups of a lease failed before, one more close whose native
      answers are all good releases it. */
  lemma RetryReleases(lease: nat, s: Stream, p: Pool)
    requires Owns(p, lease, s) && Has(p, lease) && s.work == Resting && s.cleanup == NoCleanup
    requires Acknowledges(s.launcher)
    ensures !Has(Turns(lease, Owned(s, p), [CloseCalled, CleanupBegins] + GoodAnswers).pool, lease)
  {
    CloseAsks(lease, s, p);
    var o1 := Take(lease, Owned(s, p), CloseCalled);
    CleanupStarts(lease, s, o1.pool);
    var o2 := Take(lease, o1, CleanupBegins);
    GoodAnswersRelease(lease, o2.stream, o2.pool);
    var all := [CloseCalled, CleanupBegins] + GoodAnswers;
    assert all[1..] == [CleanupBegins] + GoodAnswers && all[1..][1..] == GoodAnswers;
    assert Turns(lease, o1, all[1..]) == Turns(lease, o2, GoodAnswers);
  }
}

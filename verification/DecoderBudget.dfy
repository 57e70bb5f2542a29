/** Device-wide admission of hardware decoders
    (apps/viewer-expo/src/decoder-budget.ts).

    A lease is charged from `reserve` until a cleanup of it has completed. Each
    `await` of the source separates two steps here: a run starts, then its work
    succeeds or fails; a close is requested, its cleanup begins once the pending
    work is over, then it completes or fails. */
module DecoderBudget {
  import opened Wrappers
  import opened StreamResolution

  const DEFAULT_DECODER_CAPACITY := 4
  const SPLIT_DECODER_SLOTS := 2
  const SINGLE_DECODER_SLOTS := 1

  datatype Target = Target(width: real, height: real, fps: real)

  datatype Demand = Demand(split: bool, target: Target)

  /** The native hint. An advertised value that is not a finite number behaves like
      an absent one. */
  datatype Hint = Hint(
    maxInstances: Option<real>, maxPixelRate: Option<real>, maxInstancePixelRate: Option<real>)

  datatype Closing = NotClosing | AwaitingWork | Cleaning

  datatype Entry = Entry(lease: nat, demand: Demand, busy: bool, closing: Closing, stopped: bool)

  /** Entries are kept in reservation order; lease numbers are never reused. */
  datatype Pool = Pool(entries: seq<Entry>, hint: Hint, overlay: Option<int>, nextLease: nat)

  function EmptyPool(hint: Hint): Pool { Pool([], hint, None, 0) }

  // ------------------------------------------------------------- accounting

  function Slots(d: Demand): nat {
    if d.split then SPLIT_DECODER_SLOTS else SINGLE_DECODER_SLOTS
  }

  function Rate(t: Target): real { t.width * t.height * t.fps }

  function TotalSlots(entries: seq<Entry>, without: Option<nat>): nat {
    if entries == [] then 0
    else
      var last := entries[|entries| - 1];
      TotalSlots(entries[..|entries| - 1], without) + if Some(last.lease) == without then 0 else Slots(last.demand)
  }

  function TotalRate(entries: seq<Entry>, without: Option<nat>): real {
    if entries == [] then 0.0
    else
      var last := entries[|entries| - 1];
      TotalRate(entries[..|entries| - 1], without)
        + if Some(last.lease) == without then 0.0 else Rate(last.demand.target)
  }

  function Capacity(p: Pool, existingOperation: bool): int {
    var hinted :=
      if p.hint.maxInstances.Some? && p.hint.maxInstances.value >= 1.0
      then if p.hint.maxInstances.value.Floor <= DEFAULT_DECODER_CAPACITY
           then p.hint.maxInstances.value.Floor else DEFAULT_DECODER_CAPACITY
      else 1;
    if !existingOperation && p.overlay.Some? && p.overlay.value < hinted then p.overlay.value else hinted
  }

  predicate Exceeds(limit: Option<real>, rate: real) {
    limit.Some? && limit.value > 0.0 && rate > limit.value
  }

  predicate InstanceFits(p: Pool, d: Demand) {
    !Exceeds(p.hint.maxInstancePixelRate, Rate(d.target) / Slots(d) as real)
  }

  predicate Fits(p: Pool, d: Demand, replacing: Option<nat>) {
    && d.target.fps <= 90.0
    && d.target.width > 0.0 && d.target.height > 0.0 && d.target.fps > 0.0
    && InstanceFits(p, d)
    && Slots(d) + TotalSlots(p.entries, replacing) <= Capacity(p, replacing.Some?)
    && !Exceeds(p.hint.maxPixelRate, Rate(d.target) + TotalRate(p.entries, replacing))
  }

  // ---------------------------------------------------- the downgrade ladder

  function ShortSide(t: Target): real { MinReal(t.width, t.height) }

  /** The short side of the next step down, if there is one. */
  function NextShortSide(shortSide: real): Option<int> {
    if shortSide >= 2160.0 then Some(1440)
    else if shortSide >= 1440.0 then Some(1080)
    else if shortSide >= 1080.0 then Some(720)
    else None
  }

  function Scaled(side: real, to: real, from: real): real
    requires from != 0.0
  {
    side * (to / from)
  }

  function DowngradedTarget(t: Target): Option<Target> {
    var next := NextShortSide(ShortSide(t));
    if next.None? then None
    else
      var longSide := MaxReal(t.width, t.height);
      var nextLong := EvenCodecDimension(Scaled(longSide, next.value as real, ShortSide(t))) as real;
      if t.width >= t.height
      then Some(Target(nextLong, next.value as real, t.fps))
      else Some(Target(next.value as real, nextLong, t.fps))
  }

  function StepsLeft(t: Target): nat {
    if ShortSide(t) >= 2160.0 then 3
    else if ShortSide(t) >= 1440.0 then 2
    else if ShortSide(t) >= 1080.0 then 1
    else 0
  }

  lemma ScaledSide(shortSide: real, longSide: real, next: real)
    requires 0.0 < next < shortSide <= longSide
    ensures next <= Scaled(longSide, next, shortSide) < longSide
  {
    var k := next / shortSide;
    assert k * shortSide == next;
    assert 0.0 < k;
    if k >= 1.0 {
      ScaleMonotone(1.0, k, shortSide);
      assert false;
    }
    ScaleMonotone(shortSide, longSide, k);
    ScaleStrict(k, 1.0, longSide);
    assert shortSide * k == k * shortSide && longSide * k == k * longSide;
    assert Scaled(longSide, next, shortSide) == longSide * k;
  }

  /** The long side after a downgrade: the exact scaled side, rounded down by less
      than two, and never below the new short side. */
  lemma NextLongSide(shortSide: real, longSide: real, next: int)
    requires 0.0 < next as real < shortSide <= longSide && next % 2 == 0 && next >= 2
    ensures var exact := Scaled(longSide, next as real, shortSide);
            var rounded := EvenCodecDimension(exact) as real;
            next as real <= rounded <= exact < rounded + 2.0 && rounded < longSide
  {
    ScaledSide(shortSide, longSide, next as real);
    EvenMonotone(next as real, Scaled(longSide, next as real, shortSide));
    EvenFixed(next);
  }

  /** Each downgrade keeps the frame rate and the orientation, lowers both sides,
      and goes one ladder step down. */
  lemma DowngradeShrinks(t: Target)
    requires DowngradedTarget(t).Some?
    ensures var u := DowngradedTarget(t).value;
            && u.fps == t.fps
            && 0.0 < u.width < t.width && 0.0 < u.height < t.height
            && (t.width >= t.height ==> u.width >= u.height)
            && (t.width < t.height ==> u.width <= u.height)
            && ShortSide(u) == NextShortSide(ShortSide(t)).value as real
            && StepsLeft(u) < StepsLeft(t)
  {
    NextLongSide(ShortSide(t), MaxReal(t.width, t.height), NextShortSide(ShortSide(t)).value);
  }

  /** The single-decoder fallbacks `plan` may try, best first. */
  function Ladder(t: Target): seq<Demand>
    decreases StepsLeft(t)
  {
    var next := DowngradedTarget(t);
    if next.None? then []
    else
      DowngradeShrinks(t);
      [Demand(false, next.value)] + Ladder(next.value)
  }

  function FirstFit(p: Pool, candidates: seq<Demand>, replacing: Option<nat>): Option<Demand> {
    if candidates == [] then None
    else if Fits(p, candidates[0], replacing) then Some(candidates[0])
    else FirstFit(p, candidates[1..], replacing)
  }

  // ------------------------------------------------------------------ steps

  datatype Event =
    | SetCapability(hint: Hint)
    | SetOverlay(cap: Option<real>)
    | Reserve(demand: Demand)
    | StartWork(lease: nat, demand: Demand)
    | WorkSucceeded(lease: nat, accepted: Demand)
    | WorkFailed(lease: nat)
    | RequestClose(lease: nat)
    | BeginCleanup(lease: nat)
    | CleanupSucceeded(lease: nat)
    | CleanupFailed(lease: nat)

  /** Position of a lease's entry, or the number of entries when it has none. */
  function Find(entries: seq<Entry>, lease: nat): (i: nat)
    ensures i <= |entries|
    ensures i < |entries| ==> entries[i].lease == lease
    ensures forall k :: 0 <= k < i ==> entries[k].lease != lease
  {
    if entries == [] then 0
    else if entries[0].lease == lease then 0
    else
      assert forall k :: 0 < k < |entries| ==> entries[k] == entries[1..][k - 1];
      1 + Find(entries[1..], lease)
  }

  predicate Has(p: Pool, lease: nat) { Find(p.entries, lease) < |p.entries| }

  function EntryOf(p: Pool, lease: nat): Entry
    requires Has(p, lease)
  {
    p.entries[Find(p.entries, lease)]
  }

  predicate IsOpen(p: Pool, lease: nat) { Has(p, lease) && !EntryOf(p, lease).stopped }

  function With(p: Pool, lease: nat, e: Entry): Pool
    requires Has(p, lease)
  {
    p.(entries := p.entries[Find(p.entries, lease) := e])
  }

  /** The high-water mark of two demands on one lease. */
  function Held(previous: Demand, next: Demand): Demand {
    Demand(previous.split || next.split,
           if Rate(previous.target) > Rate(next.target) then previous.target else next.target)
  }

  predicate CanStart(p: Pool, lease: nat, d: Demand) {
    && Has(p, lease)
    && !EntryOf(p, lease).stopped && !EntryOf(p, lease).busy
    && Fits(p, Held(EntryOf(p, lease).demand, d), Some(lease))
  }

  predicate WithinReservation(accepted: Demand, held: Demand) {
    Slots(accepted) <= Slots(held) && Rate(accepted.target) <= Rate(held.target)
  }

  function OverlayOf(cap: Option<real>): Option<int> {
    if cap.Some? && cap.value >= 1.0 then Some(cap.value.Floor) else None
  }

  predicate OnLease(e: Event) { !e.SetCapability? && !e.SetOverlay? && !e.Reserve? }

  /** Whether an event on a lease takes effect where the lease stands. */
  predicate Effective(p: Pool, e: Event)
    requires OnLease(e)
  {
    Has(p, e.lease) &&
    var entry := EntryOf(p, e.lease);
    match e
    case StartWork(lease, d) => CanStart(p, lease, d)
    case WorkSucceeded(lease, accepted) => entry.busy
    case WorkFailed(lease) => entry.busy
    case RequestClose(lease) => entry.closing == NotClosing
    case BeginCleanup(lease) => entry.closing == AwaitingWork && !entry.busy
    case CleanupSucceeded(lease) => entry.closing == Cleaning
    case CleanupFailed(lease) => entry.closing == Cleaning
  }

  /** What an event on a lease makes of its entry. */
  function Updated(entry: Entry, e: Event): Entry
    requires OnLease(e) && !e.CleanupSucceeded?
  {
    match e
    case StartWork(lease, d) => entry.(demand := Held(entry.demand, d), busy := true)
    case WorkSucceeded(lease, accepted) =>
      entry.(busy := false, demand := if WithinReservation(accepted, entry.demand) then accepted else entry.demand)
    case WorkFailed(lease) => entry.(busy := false)
    case RequestClose(lease) => entry.(stopped := true, closing := AwaitingWork)
    case BeginCleanup(lease) => entry.(closing := Cleaning)
    case CleanupFailed(lease) => entry.(closing := NotClosing)
  }

  function Without(p: Pool, lease: nat): Pool
    requires Has(p, lease)
  {
    var i := Find(p.entries, lease);
    p.(entries := p.entries[..i] + p.entries[i + 1..])
  }

  function OnLeaseStep(p: Pool, e: Event): Pool
    requires OnLease(e)
  {
    if !Effective(p, e) then p
    else if e.CleanupSucceeded? then Without(p, e.lease)
    else With(p, e.lease, Updated(EntryOf(p, e.lease), e))
  }

  function Step(p: Pool, e: Event): Pool {
    match e
    case SetCapability(hint) => p.(hint := hint)
    case SetOverlay(cap) => p.(overlay := OverlayOf(cap))
    case Reserve(d) =>
      if Fits(p, d, None)
      then p.(entries := p.entries + [Entry(p.nextLease, d, false, NotClosing, false)], nextLease := p.nextLease + 1)
      else p
    case _ => OnLeaseStep(p, e)
  }

  function Run(p: Pool, events: seq<Event>): Pool
    decreases events
  {
    if events == [] then p else Run(Step(p, events[0]), events[1..])
  }

  // ------------------------------------------------- the pool, in place

  class DecoderReservations {
    var entries: seq<Entry>
    var hint: Hint
    var capacityOverlay: Option<int>
    var nextLease: nat

    ghost function Model(): Pool
      reads this
    {
      Pool(entries, hint, capacityOverlay, nextLease)
    }

    constructor (hint: Hint)
      ensures Model() == EmptyPool(hint)
    {
      this.entries, this.hint, this.capacityOverlay, this.nextLease := [], hint, None, 0;
    }

    method SetCapability(hint: Hint)
      modifies this`hint
      ensures Model() == Step(old(Model()), Event.SetCapability(hint))
    {
      this.hint := hint;
    }

    method SetCapacityOverlay(cap: Option<real>)
      modifies this`capacityOverlay
      ensures Model() == Step(old(Model()), SetOverlay(cap))
    {
      if cap.Some? && cap.value >= 1.0 {
        capacityOverlay := Some(cap.value.Floor);
      } else {
        capacityOverlay := None;
      }
    }

    method FitsNow(demand: Demand, replacing: Option<nat>) returns (fits: bool)
      ensures fits <==> Fits(Model(), demand, replacing)
    {
      if demand.target.fps > 90.0 {
        return false;
      }
      if !(demand.target.width > 0.0 && demand.target.height > 0.0 && demand.target.fps > 0.0) {
        return false;
      }
      var limit := hint.maxInstancePixelRate;
      if limit.Some? && limit.value > 0.0 && Rate(demand.target) / Slots(demand) as real > limit.value {
        return false;
      }
      var slots, pixels := Slots(demand), Rate(demand.target);
      for n := 0 to |entries|
        invariant slots == Slots(demand) + TotalSlots(entries[..n], replacing)
        invariant pixels == Rate(demand.target) + TotalRate(entries[..n], replacing)
      {
        assert entries[..n + 1][..n] == entries[..n];
        if Some(entries[n].lease) != replacing {
          slots := slots + Slots(entries[n].demand);
          pixels := pixels + Rate(entries[n].demand.target);
        }
      }
      assert entries[..|entries|] == entries;
      var pool := Pool(entries, hint, capacityOverlay, nextLease);
      fits := slots <= Capacity(pool, replacing.Some?) && !Exceeds(hint.maxPixelRate, pixels);
    }

    /** The first of the demand itself and its ladder of single-decoder fallbacks
        that both budgets admit; nothing when none does. */
    method Plan(demand: Demand, replacing: Option<nat>) returns (planned: Option<Demand>)
      ensures planned == FirstFit(Model(), [demand] + Ladder(demand.target), replacing)
    {
      var admitted := FitsNow(demand, replacing);
      assert ([demand] + Ladder(demand.target))[1..] == Ladder(demand.target);
      if admitted {
        return Some(demand);
      }
      var target := DowngradedTarget(demand.target);
      ghost var above := demand.target;
      while target.Some?
        invariant target == DowngradedTarget(above)
        invariant FirstFit(Model(), [demand] + Ladder(demand.target), replacing)
               == FirstFit(Model(), Ladder(above), replacing)
        decreases StepsLeft(above)
      {
        DowngradeShrinks(above);
        var candidate := Demand(false, target.value);
        assert Ladder(above) == [candidate] + Ladder(target.value);
        assert Ladder(above)[1..] == Ladder(target.value);
        admitted := FitsNow(candidate, replacing);
        if admitted {
          return Some(candidate);
        }
        above := target.value;
        target := DowngradedTarget(target.value);
      }
      planned := None;
    }

    /** Hands out the next lease, or nothing when the demand is not admitted. */
    method ReserveLease(demand: Demand) returns (lease: Option<nat>)
      modifies this
      ensures Model() == Step(old(Model()), Reserve(demand))
      ensures lease == if Fits(old(Model()), demand, None) then Some(old(nextLease)) else None
    {
      var admitted := FitsNow(demand, None);
      if !admitted {
        return None;
      }
      lease := Some(nextLease);
      entries := entries + [Entry(nextLease, demand, false, NotClosing, false)];
      nextLease := nextLease + 1;
    }

    /** The synchronous part of `run`: checks, charges the high-water mark and
        publishes ownership before any work is invoked. */
    method StartRun(lease: nat, demand: Demand) returns (started: bool)
      modifies this
      ensures started <==> CanStart(old(Model()), lease, demand)
      ensures Model() == Step(old(Model()), StartWork(lease, demand))
    {
      var i := Find(entries, lease);
      if i == |entries| || entries[i].stopped || entries[i].busy {
        return false;
      }
      var previous := entries[i].demand;
      var held := Demand(
        previous.split || demand.split,
        if Rate(previous.target) > Rate(demand.target) then previous.target else demand.target);
      started := FitsNow(held, Some(lease));
      if started {
        entries := entries[i := entries[i].(demand := held, busy := true)];
      }
    }

    /** The work of a run came back: either with the demand the native side
        accepted, or with an error (`None`). */
    method FinishRun(lease: nat, result: Option<Demand>) returns (ok: bool)
      modifies this
      ensures Model() == Step(old(Model()),
                              if result.Some? then WorkSucceeded(lease, result.value) else WorkFailed(lease))
      ensures ok ==> Has(Model(), lease) && Some(EntryOf(Model(), lease).demand) == result
    {
      ok := false;
      var i := Find(entries, lease);
      if i < |entries| && entries[i].busy {
        var entry := entries[i];
        if result.Some? && Slots(result.value) <= Slots(entry.demand)
           && Rate(result.value.target) <= Rate(entry.demand.target) {
          entry := entry.(demand := result.value);
          ok := true;
        }
        ghost var before := entries;
        entries := entries[i := entry.(busy := false)];
        KeepsPosition(before, i, entry.(busy := false), lease);
      }
    }

    method Close(lease: nat)
      modifies this
      ensures Model() == Step(old(Model()), RequestClose(lease))
    {
      var i := Find(entries, lease);
      if i < |entries| && entries[i].closing == NotClosing {
        entries := entries[i := entries[i].(stopped := true, closing := AwaitingWork)];
      }
    }

    method StartCleanup(lease: nat)
      modifies this
      ensures Model() == Step(old(Model()), BeginCleanup(lease))
    {
      var i := Find(entries, lease);
      if i < |entries| && entries[i].closing == AwaitingWork && !entries[i].busy {
        entries := entries[i := entries[i].(closing := Cleaning)];
      }
    }

    method FinishCleanup(lease: nat, completed: bool)
      modifies this
      ensures Model() == Step(old(Model()), if completed then CleanupSucceeded(lease) else CleanupFailed(lease))
    {
      var i := Find(entries, lease);
      if i < |entries| && entries[i].closing == Cleaning {
        if completed {
          entries := entries[..i] + entries[i + 1..];
        } else {
          entries := entries[i := entries[i].(closing := NotClosing)];
        }
      }
    }
  }

  lemma KeepsPosition(entries: seq<Entry>, i: nat, e: Entry, lease: nat)
    requires i < |entries| && i == Find(entries, lease) && e.lease == lease
    ensures Find(entries[i := e], lease) == i
  {
    var changed := entries[i := e];
    assert changed[i].lease == lease;
    assert forall k :: 0 <= k < i ==> changed[k] == entries[k];
  }
}

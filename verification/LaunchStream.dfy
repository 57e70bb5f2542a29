/** Starting and reconfiguring a prepared stream
    (apps/viewer-expo/src/launch-stream.ts) as sequences of effects on the native
    launcher and the Host, for every way those effects can turn out. */
module LaunchStream {
  import opened Wrappers
  import opened StreamResolution
  import opened DecoderBudget
  import DecoderInvariants
  import opened EncoderExperiments

  const STREAM_TARGET_FPS := 60.0

  datatype Transport = Usb | Udp | Tcp | AdbTcp

  datatype RequestedTransport = AutoTransport | UsbRequested | TcpRequested | AdbTcpRequested | UdpRequested | OtherTransport

  datatype Failure =
    | ReservationExceeded | UsbDenied | PrepareFailed | ReprepareFailed | HostRejected | OpenFailed | SplitRejected | SettingFailed
    | AmbiguousStop | StopFailed

  /** A window asked of the native launcher, with the mode the port's listeners were
      prepared for at that moment. */
  datatype Window = Window(experiment: Experiment, target: Target, listeners: Option<Experiment>, shown: bool)

  /** One viewer port as the launcher and the Host see it. */
  class Port {
    /** The mode the listeners are prepared for. */
    var listening: Option<Experiment>
    /** Modes whose preparation was asked for, in order, whatever came of it. */
    var modes: seq<Experiment>
    /** Modes whose last preparation was not followed by an acknowledged cancellation. */
    var uncancelled: set<Experiment>
    /** A Host session acknowledged and not asked to stop since. */
    var acknowledged: Option<nat>
    /** Modes asked of the Host by name, in order. */
    var asked: seq<Experiment>
    /** Windows asked of the launcher, in order. */
    var windows: seq<Window>

    predicate Fresh()
      reads this
    {
      listening == None && modes == [] && uncancelled == {} && acknowledged == None && asked == [] && windows == []
    }

    constructor ()
      ensures Fresh()
    {
      listening, modes, uncancelled, acknowledged, asked, windows := None, [], {}, None, [], [];
    }

    /** A failed preparation can already own resources. */
    method Prepare(e: Experiment, ok: bool)
      modifies this`listening, this`modes, this`uncancelled
      ensures listening == (if ok then Some(e) else None)
      ensures modes == old(modes) + [e] && uncancelled == old(uncancelled) + {e}
    {
      listening, modes, uncancelled := if ok then Some(e) else None, modes + [e], uncancelled + {e};
    }

    /** The callers swallow a refused cancellation. */
    method Cancel(e: Experiment, ok: bool)
      modifies this`listening, this`uncancelled
      ensures listening == (if ok && old(listening) == Some(e) then None else old(listening))
      ensures uncancelled == old(uncancelled) - (if ok then {e} else {})
    {
      if ok {
        if listening == Some(e) {
          listening := None;
        }
        uncancelled := uncancelled - {e};
      }
    }

    method Open(e: Experiment, target: Target, ok: bool)
      modifies this`windows
      ensures windows == old(windows) + [Window(e, target, listening, ok)]
    {
      windows := windows + [Window(e, target, listening, ok)];
    }
  }

  /** What stays prepared when the modes were prepared in this order, each followed by
      one cancellation of it that was acknowledged or was not. */
  function LeftPrepared(modes: seq<Experiment>, acknowledged: seq<bool>): set<Experiment>
    requires |modes| == |acknowledged|
  {
    if modes == [] then {}
    else
      var n := |modes| - 1;
      LeftPrepared(modes[..n], acknowledged[..n]) + {modes[n]} - (if acknowledged[n] then {modes[n]} else {})
  }

  /** The last preparation of a mode, never acknowledged as cancelled. */
  predicate Standing(modes: seq<Experiment>, acknowledged: seq<bool>, e: Experiment, k: nat)
    requires |modes| == |acknowledged|
  {
    k < |modes| && modes[k] == e && !acknowledged[k] && forall j :: k < j < |modes| ==> modes[j] != e
  }

  /** A mode stays prepared exactly when its last preparation stands. */
  lemma {:induction false} LeftPreparedIff(modes: seq<Experiment>, acknowledged: seq<bool>, e: Experiment)
    requires |modes| == |acknowledged|
    ensures e in LeftPrepared(modes, acknowledged) <==> exists k :: Standing(modes, acknowledged, e, k)
  {
    if modes != [] {
      var n := |modes| - 1;
      if modes[n] == e {
        assert Standing(modes, acknowledged, e, n) <==> !acknowledged[n];
      } else {
        LeftPreparedIff(modes[..n], acknowledged[..n], e);
        forall k: nat
          ensures Standing(modes, acknowledged, e, k) <==> Standing(modes[..n], acknowledged[..n], e, k)
        {
        }
      }
    }
  }

  function ResolveTransport(attached: bool, requested: RequestedTransport): Transport {
    match requested
    case AutoTransport => if attached then Usb else Udp
    case UsbRequested => Usb
    case TcpRequested => Tcp
    case AdbTcpRequested => AdbTcp
    case UdpRequested => Udp
    case OtherTransport => if attached then Usb else Udp
  }

  /** The reservation assertion fires: too many instances, a target that is not
      positive, or a pixel rate above the reserved one. */
  predicate Trips(reservation: Option<Demand>, e: Experiment, t: Target) {
    reservation.Some? &&
    (|| (e == SplitVertical && !reservation.value.split)
     || !(t.width > 0.0 && t.height > 0.0 && t.fps > 0.0)
     || Rate(t) > Rate(reservation.value.target))
  }

  function ShapeOf(e: Experiment, t: Target): Demand { Demand(e == SplitVertical, t) }

  /** The window stays inside the reserved slots and pixel rate. */
  predicate WithinReserved(w: Window, reservation: Option<Demand>) {
    reservation.Some? ==>
      WithinReservation(ShapeOf(w.experiment, w.target), reservation.value) && Rate(w.target) > 0.0
  }

  lemma NotTripped(reservation: Option<Demand>, e: Experiment, t: Target)
    requires !Trips(reservation, e, t)
    ensures forall w: Window :: w.experiment == e && w.target == t ==> WithinReserved(w, reservation)
  {
    if reservation.Some? {
      DecoderInvariants.PositiveRate(t);
    }
  }

  // ------------------------------------------------------------- starting

  datatype StartArgs = StartArgs(experiment: Experiment, target: Target, transport: RequestedTransport)

  datatype HostStarted = HostStarted(session: nat, width: Option<real>, height: Option<real>, fps: Option<real>)

  datatype StopReply = Stopped | AlreadyAbsent | StopUnknown | StopRefused

  /** One way the environment may answer a start: what the native side makes of each
      preparation, of each cancellation and of the window, and the Host's answers. */
  datatype StartWorld = StartWorld(
    usbAttached: bool, firstPrepare: bool, fallbackCancel: bool, secondPrepare: bool,
    answer: Option<HostStarted>, open: bool, settings: bool, stop: StopReply, finalCancel: bool)

  datatype Started = Started(session: nat, experiment: Experiment, transport: Transport, target: Target)

  function OrElse(given: Option<real>, fallback: real): real {
    if given.Some? then given.value else fallback
  }

  function AcceptedTarget(answer: HostStarted, args: StartArgs): Target {
    Target(OrElse(answer.width, args.target.width),
           OrElse(answer.height, args.target.height),
           OrElse(answer.fps, args.target.fps))
  }

  /** A target as the Host answered it: its own number where it sent one, the requested
      number where it did not. */
  predicate AsAnswered(t: Target, answer: HostStarted, asked: Target) {
    && (answer.width.Some? ==> t.width == answer.width.value) && (answer.width.None? ==> t.width == asked.width)
    && (answer.height.Some? ==> t.height == answer.height.value) && (answer.height.None? ==> t.height == asked.height)
    && (answer.fps.Some? ==> t.fps == answer.fps.value) && (answer.fps.None? ==> t.fps == asked.fps)
  }

  /** Positive sides and rate, and no more pixels per second than were reserved. */
  predicate InsideReservedRate(t: Target, reservation: Option<Demand>) {
    reservation.Some? ==>
      var r := reservation.value.target;
      && t.width > 0.0 && t.height > 0.0 && t.fps > 0.0
      && t.width * t.height * t.fps <= r.width * r.height * r.fps
  }

  lemma OnlyOneTargetIsAnswered(answer: HostStarted, args: StartArgs, t: Target)
    ensures AsAnswered(t, answer, args.target) <==> t == AcceptedTarget(answer, args)
  {
  }

  /** Written out: what trips the reservation assertion. */
  lemma TripsIff(reservation: Option<Demand>, e: Experiment, t: Target)
    ensures Trips(reservation, e, t) <==>
            (reservation.Some? && e == SplitVertical && !reservation.value.split) || !InsideReservedRate(t, reservation)
  {
  }

  function SelectedMode(args: StartArgs, adverts: seq<Advert>): Experiment {
    Resolve(args.experiment, adverts, args.target.width, args.target.height)
  }

  function StartTransport(args: StartArgs, adverts: seq<Advert>, attached: bool): Transport {
    ResolveTransport(attached, if SelectedMode(args, adverts) == SplitVertical then UdpRequested else args.transport)
  }

  /** The mode a start prepares for first. */
  function StartMode(args: StartArgs, adverts: seq<Advert>, attached: bool): Experiment {
    SelectAutomatic(SelectedMode(args, adverts), adverts, args.target.width, args.target.height,
                    StartTransport(args, adverts, attached) == Udp)
  }

  /** A start that ends before anything is prepared. */
  function StartRefusal(
    args: StartArgs, adverts: seq<Advert>, reservation: Option<Demand>, attached: bool): Option<Failure>
  {
    if SelectedMode(args, adverts) != SplitVertical && args.transport == UsbRequested && !attached then Some(UsbDenied)
    else if Trips(reservation, StartMode(args, adverts, attached), args.target) then Some(ReservationExceeded)
    else None
  }

  /** An automatic split whose preparation failed is given up for a single decoder. */
  predicate StartFallsBack(args: StartArgs, adverts: seq<Advert>, world: StartWorld) {
    && !world.firstPrepare && SelectedMode(args, adverts) == Auto
    && StartMode(args, adverts, world.usbAttached) == SplitVertical
  }

  /** The modes a start prepares, in order. */
  function StartModes(
    args: StartArgs, adverts: seq<Advert>, reservation: Option<Demand>, world: StartWorld): seq<Experiment>
  {
    if StartRefusal(args, adverts, reservation, world.usbAttached).Some? then []
    else if StartFallsBack(args, adverts, world) then [SplitVertical, Auto]
    else [StartMode(args, adverts, world.usbAttached)]
  }

  /** An acknowledged session is asked to stop; an unconfirmed stop is what the
      caller learns. */
  function StopOutcome(world: StartWorld, cause: Failure): Failure {
    match world.stop
    case StopUnknown => AmbiguousStop
    case StopRefused => StopFailed
    case _ => cause
  }

  function StartResult(
    args: StartArgs, adverts: seq<Advert>, reservation: Option<Demand>, world: StartWorld): Result<Started, Failure>
  {
    var refusal := StartRefusal(args, adverts, reservation, world.usbAttached);
    if refusal.Some? then Err(refusal.value)
    else
      var fallsBack := StartFallsBack(args, adverts, world);
      var experiment := if fallsBack then Auto else StartMode(args, adverts, world.usbAttached);
      if !(if fallsBack then world.secondPrepare else world.firstPrepare) then Err(PrepareFailed)
      else if world.answer.None? then Err(HostRejected)
      else
        var accepted := AcceptedTarget(world.answer.value, args);
        if Trips(reservation, experiment, accepted) then Err(StopOutcome(world, ReservationExceeded))
        else if !world.open then Err(StopOutcome(world, OpenFailed))
        else if !world.settings then Err(StopOutcome(world, SettingFailed))
        else Ok(Started(world.answer.value.session, experiment,
                        if experiment == SplitVertical then Udp else StartTransport(args, adverts, world.usbAttached),
                        accepted))
  }

  /** Which cancellations were acknowledged: a success never cancels its last
      preparation. */
  function StartCancels(
    args: StartArgs, adverts: seq<Advert>, reservation: Option<Demand>, world: StartWorld): (r: seq<bool>)
    ensures |r| == |StartModes(args, adverts, reservation, world)|
  {
    var last := StartResult(args, adverts, reservation, world).Err? && world.finalCancel;
    match |StartModes(args, adverts, reservation, world)|
    case 0 => []
    case 1 => [last]
    case _ => [world.fallbackCancel, last]
  }

  function LeftByStart(
    args: StartArgs, adverts: seq<Advert>, reservation: Option<Demand>, world: StartWorld): set<Experiment>
  {
    LeftPrepared(StartModes(args, adverts, reservation, world), StartCancels(args, adverts, reservation, world))
  }

  lemma LeftByOne(e: Experiment, acknowledged: bool)
    ensures LeftPrepared([e], [acknowledged]) == if acknowledged then {} else {e}
  {
    assert LeftPrepared([e][..0], [acknowledged][..0]) == {};
  }

  lemma LeftByTwo(first: Experiment, second: Experiment, one: bool, two: bool)
    requires first != second
    ensures LeftPrepared([first, second], [one, two]) == (if one then {} else {first}) + (if two then {} else {second})
  {
    assert [first, second][..1] == [first] && [one, two][..1] == [one];
    LeftByOne(first, one);
  }

  lemma LeftByStartIs(args: StartArgs, adverts: seq<Advert>, reservation: Option<Demand>, world: StartWorld)
    requires StartRefusal(args, adverts, reservation, world.usbAttached).None?
    ensures var last := StartResult(args, adverts, reservation, world).Err? && world.finalCancel;
            LeftByStart(args, adverts, reservation, world) ==
              if StartFallsBack(args, adverts, world)
              then (if world.fallbackCancel then {} else {SplitVertical}) + (if last then {} else {Auto})
              else if last then {} else {StartMode(args, adverts, world.usbAttached)}
  {
    var last := StartResult(args, adverts, reservation, world).Err? && world.finalCancel;
    LeftByOne(StartMode(args, adverts, world.usbAttached), last);
    LeftByTwo(SplitVertical, Auto, world.fallbackCancel, last);
  }

  /** The preparation a start ends up with succeeded. */
  predicate StartIsBound(args: StartArgs, adverts: seq<Advert>, world: StartWorld) {
    world.firstPrepare || (StartFallsBack(args, adverts, world) && world.secondPrepare)
  }

  /** A start succeeds if and only if it is not refused, its listeners are bound, the Host
      answers with a target inside the reserved rate, and the window and its settings
      succeed. It then reports the Host's session and the target exactly as the Host
      answered it. A target outside the reserved rate fails, whatever else succeeds. */
  lemma StartSucceedsIff(
    args: StartArgs, adverts: seq<Advert>, reservation: Option<Demand>, world: StartWorld, answered: Target)
    requires world.answer.Some? ==> AsAnswered(answered, world.answer.value, args.target)
    ensures var result := StartResult(args, adverts, reservation, world);
            && (result.Ok? <==>
                  && StartRefusal(args, adverts, reservation, world.usbAttached).None?
                  && StartIsBound(args, adverts, world)
                  && world.answer.Some? && InsideReservedRate(answered, reservation) && world.open && world.settings)
            && (result.Ok? ==>
                  && result.value.session == world.answer.value.session && result.value.target == answered
                  && (result.value.experiment == SplitVertical ==> result.value.transport == Udp))
  {
    if world.answer.Some? {
      OnlyOneTargetIsAnswered(world.answer.value, args, answered);
    }
    TripsIff(reservation, StartMode(args, adverts, world.usbAttached), answered);
    TripsIff(reservation, Auto, answered);
    TripsIff(reservation, StartMode(args, adverts, world.usbAttached), args.target);
  }

  /** What the caller learns of a start that failed after the Host acknowledged a session:
      that the stop is unconfirmed, or that it was refused, or the first failure. */
  lemma StopIsReported(args: StartArgs, adverts: seq<Advert>, reservation: Option<Demand>, world: StartWorld)
    requires StartResult(args, adverts, reservation, world).Err?
    ensures var error := StartResult(args, adverts, reservation, world).error;
            var acknowledged := StartRefusal(args, adverts, reservation, world.usbAttached).None?
                                && StartIsBound(args, adverts, world) && world.answer.Some?;
            && (acknowledged && world.stop == StopUnknown <==> error == AmbiguousStop)
            && (acknowledged && world.stop == StopRefused <==> error == StopFailed)
            && (!acknowledged ==> error in {UsbDenied, ReservationExceeded, PrepareFailed, HostRejected})
  {
  }

  /** Binds the listeners, falling back from an automatic split to a single decoder
      when the split preparation fails. */
  method PrepareForStart(port: Port, args: StartArgs, adverts: seq<Advert>, world: StartWorld)
    returns (experiment: Experiment, transport: Transport, ok: bool)
    requires port.Fresh()
    modifies port`listening, port`modes, port`uncancelled
    ensures var fallsBack := StartFallsBack(args, adverts, world);
            && experiment == (if fallsBack then Auto else StartMode(args, adverts, world.usbAttached))
            && ok == (if fallsBack then world.secondPrepare else world.firstPrepare)
            && port.modes == (if fallsBack then [SplitVertical, Auto] else [experiment])
            && port.uncancelled == (if fallsBack && !world.fallbackCancel then {SplitVertical} else {}) + {experiment}
    ensures ok ==> port.listening == Some(experiment)
    ensures transport == if experiment == SplitVertical then Udp else StartTransport(args, adverts, world.usbAttached)
  {
    var resolved := StartTransport(args, adverts, world.usbAttached);
    experiment := StartMode(args, adverts, world.usbAttached);
    transport := if experiment == SplitVertical then Udp else resolved;
    port.Prepare(experiment, world.firstPrepare);
    ok := world.firstPrepare;
    if !ok && SelectedMode(args, adverts) == Auto && experiment == SplitVertical {
      port.Cancel(experiment, world.fallbackCancel);
      experiment, transport := Auto, resolved;
      port.Prepare(experiment, world.secondPrepare);
      ok := world.secondPrepare;
    }
  }

  /** From prepared listeners to the window, or to the first failure. */
  method OpenStarted(
    port: Port, args: StartArgs, experiment: Experiment, transport: Transport, reservation: Option<Demand>,
    world: StartWorld)
    returns (outcome: Result<Started, Failure>)
    requires port.listening == Some(experiment) && port.acknowledged == None && port.windows == []
    modifies port`acknowledged, port`windows
    ensures outcome ==
            if world.answer.None? then Err(HostRejected)
            else if Trips(reservation, experiment, AcceptedTarget(world.answer.value, args)) then Err(ReservationExceeded)
            else if !world.open then Err(OpenFailed)
            else if !world.settings then Err(SettingFailed)
            else Ok(Started(world.answer.value.session, experiment, transport, AcceptedTarget(world.answer.value, args)))
    ensures port.acknowledged == if world.answer.Some? then Some(world.answer.value.session) else None
    ensures forall w :: w in port.windows ==>
              && w.experiment == experiment && w.listeners == Some(experiment) && WithinReserved(w, reservation)
              && world.answer.Some? && AsAnswered(w.target, world.answer.value, args.target)
              && InsideReservedRate(w.target, reservation)
              && (w.shown ==> outcome.Ok? || outcome.error == SettingFailed)
    ensures outcome.Ok? ==> port.windows == [Window(experiment, outcome.value.target, Some(experiment), true)]
  {
    if world.answer.None? {
      return Err(HostRejected);
    }
    port.acknowledged := Some(world.answer.value.session);
    var accepted := AcceptedTarget(world.answer.value, args);
    if Trips(reservation, experiment, accepted) {
      return Err(ReservationExceeded);
    }
    NotTripped(reservation, experiment, accepted);
    OnlyOneTargetIsAnswered(world.answer.value, args, accepted);
    TripsIff(reservation, experiment, accepted);
    port.Open(experiment, accepted, world.open);
    if !world.open {
      return Err(OpenFailed);
    }
    if !world.settings {
      return Err(SettingFailed);
    }
    outcome := Ok(Started(world.answer.value.session, experiment, transport, accepted));
  }

  /** A whole start, for every answer of the environment. A window is asked for only
      on listeners prepared for its mode and inside the reservation. After a failure
      an acknowledged session was asked to stop, no window stays open unless only a
      late setting failed, and an unconfirmed stop is reported as such. What stays
      prepared is exactly what no acknowledged cancellation followed. */
  method StartPreparedStream(
    port: Port, args: StartArgs, adverts: seq<Advert>, reservation: Option<Demand>, world: StartWorld)
    returns (outcome: Result<Started, Failure>)
    requires port.Fresh()
    modifies port
    ensures outcome == StartResult(args, adverts, reservation, world)
    ensures port.modes == StartModes(args, adverts, reservation, world)
    ensures port.uncancelled == LeftByStart(args, adverts, reservation, world)
    ensures forall w :: w in port.windows ==> w.listeners == Some(w.experiment) && WithinReserved(w, reservation)
    ensures forall w :: w in port.windows ==>
              world.answer.Some? && AsAnswered(w.target, world.answer.value, args.target)
              && InsideReservedRate(w.target, reservation)
    ensures outcome.Ok? ==>
              var s := outcome.value;
              && port.windows == [Window(s.experiment, s.target, Some(s.experiment), true)]
              && port.listening == Some(s.experiment) && port.acknowledged == Some(s.session)
              && (s.experiment == SplitVertical ==> s.transport == Udp)
    ensures outcome.Err? ==>
              && port.acknowledged == None
              && ((exists w :: w in port.windows && w.shown) ==>
                    outcome.error == SettingFailed || outcome.error == AmbiguousStop || outcome.error == StopFailed)
  {
    var refusal := StartRefusal(args, adverts, reservation, world.usbAttached);
    var experiment := StartMode(args, adverts, world.usbAttached);
    if refusal.Some? {
      port.Cancel(experiment, world.finalCancel);
      return Err(refusal.value);
    }
    LeftByStartIs(args, adverts, reservation, world);
    var transport, ok;
    experiment, transport, ok := PrepareForStart(port, args, adverts, world);
    if ok {
      outcome := OpenStarted(port, args, experiment, transport, reservation, world);
    } else {
      outcome := Err(PrepareFailed);
    }
    if outcome.Err? {
      var failure := RollBackStart(port, experiment, outcome.error, world);
      outcome := Err(failure);
    }
  }

  /** Stops the acknowledged session, if there is one, and cancels the last
      preparation. */
  method RollBackStart(port: Port, experiment: Experiment, cause: Failure, world: StartWorld) returns (failure: Failure)
    modifies port`acknowledged, port`listening, port`uncancelled
    ensures failure == if old(port.acknowledged).Some? then StopOutcome(world, cause) else cause
    ensures port.acknowledged == None
    ensures port.uncancelled == old(port.uncancelled) - (if world.finalCancel then {experiment} else {})
  {
    failure := cause;
    if port.acknowledged.Some? {
      failure := StopOutcome(world, cause);
      port.acknowledged := None;
    }
    port.Cancel(experiment, world.finalCancel);
  }

  /** A failed start leaves nothing prepared exactly when the last cancellation, and
      the one before the fallback if there was one, were acknowledged. */
  lemma FailedStartLeavesNothingIff(
    args: StartArgs, adverts: seq<Advert>, reservation: Option<Demand>, world: StartWorld)
    requires StartResult(args, adverts, reservation, world).Err?
    ensures LeftByStart(args, adverts, reservation, world) == {} <==>
            || StartRefusal(args, adverts, reservation, world.usbAttached).Some?
            || (world.finalCancel && (StartFallsBack(args, adverts, world) ==> world.fallbackCancel))
  {
    if StartRefusal(args, adverts, reservation, world.usbAttached).None? {
      LeftByStartIs(args, adverts, reservation, world);
    }
  }

  /** Known before the call: every failure leaves nothing prepared exactly when the
      start is refused before it prepares anything. The refusal for missing UDP support,
      which comes before the preparation too, is not modelled. */
  lemma EveryFailedStartIsCleanIff(
    args: StartArgs, adverts: seq<Advert>, reservation: Option<Demand>, attached: bool)
    ensures (forall world: StartWorld ::
               world.usbAttached == attached && StartResult(args, adverts, reservation, world).Err? ==>
                 LeftByStart(args, adverts, reservation, world) == {})
            <==> StartRefusal(args, adverts, reservation, attached).Some?
  {
    var refused := StartWorld(attached, false, false, false, None, false, false, Stopped, false);
    FailedStartLeavesNothingIff(args, adverts, reservation, refused);
  }

  /** A Host that offers the split mode and the automatic one, and a viewer on UDP. */
  const SplitAdverts := [Advert(Some(Auto), false, false, true), Advert(Some(SplitVertical), false, false, true)]

  const Target4K := Target(SPLIT_4K_WIDTH, SPLIT_4K_HEIGHT, STREAM_TARGET_FPS)

  lemma SplitIsOffered()
    ensures Available(SplitAdverts, SPLIT_4K_WIDTH, SPLIT_4K_HEIGHT, Auto)
    ensures Available(SplitAdverts, SPLIT_4K_WIDTH, SPLIT_4K_HEIGHT, SplitVertical)
  {
    assert SplitAdverts[0].id == Some(Auto) && SplitAdverts[1].id == Some(SplitVertical);
  }

  /** The last cancellation alone does not clean up after a fallback: it names the
      single mode, so a split preparation whose cancellation was refused stays. */
  lemma RefusedFallbackCancelStays()
    ensures var args := StartArgs(Auto, Target4K, UdpRequested);
            var world := StartWorld(false, false, false, true, None, false, false, Stopped, true);
            && StartResult(args, SplitAdverts, None, world) == Err(HostRejected)
            && LeftByStart(args, SplitAdverts, None, world) == {SplitVertical}
  {
    SplitIsOffered();
    LeftByTwo(SplitVertical, Auto, false, true);
  }

  /** A launch whose demand was planned from the predicted shape never trips the
      reservation assertion before its preparation: whatever the Host advertises,
      whatever mode is selected, at every size and on every transport. */
  lemma PlannedLaunchNeverTrips(
    pool: Pool, selected: Experiment, adverts: seq<Advert>, wanted: Target, udp: bool)
    ensures var shape := RequestedDecoderShape(selected, adverts, wanted.width, wanted.height);
            var planned := FirstFit(pool, [Demand(shape, wanted)] + Ladder(wanted), None);
            planned.Some? ==>
              var t := planned.value.target;
              var chosen := SelectAutomatic(Resolve(selected, adverts, t.width, t.height), adverts, t.width, t.height, udp);
              !Trips(planned, chosen, t)
  {
    var shape := RequestedDecoderShape(selected, adverts, wanted.width, wanted.height);
    var candidates := [Demand(shape, wanted)] + Ladder(wanted);
    var planned := FirstFit(pool, candidates, None);
    if planned.Some? {
      DecoderInvariants.FirstFitFacts(pool, candidates, None);
      DecoderInvariants.PlanIsReservable(pool, Demand(shape, wanted));
      var t := planned.value.target;
      PredictionCoversSelection(selected, adverts, t.width, t.height, udp);
    }
  }

  // --------------------------------------------------------- reconfiguring

  datatype ActiveStream = ActiveStream(session: nat, experiment: Experiment, transport: Transport)

  datatype HostAccepted = HostAccepted(session: nat, experiment: Option<Experiment>, target: Target)

  /** One way the environment may answer a reconfiguration. */
  datatype ReconfigureWorld = ReconfigureWorld(
    firstPrepare: bool, fallbackCancel: bool, fallbackPrepare: bool, firstAnswer: Option<HostAccepted>,
    settleCancel: bool, splitPrepare: bool, secondAnswer: Option<HostAccepted>, open: bool, settings: bool,
    finalCancel: bool)

  predicate IsExact4K(t: Target) { t.width == SPLIT_4K_WIDTH && t.height == SPLIT_4K_HEIGHT }

  function ResolveReconfigure(
    active: ActiveStream, target: Target, capable: bool, adverts: seq<Advert>): Experiment
  {
    if active.experiment == SplitVertical && !IsExact4K(target) then Auto
    else if capable && active.experiment == Auto && active.transport == Udp && IsExact4K(target)
            && target.fps == STREAM_TARGET_FPS
            && Available(adverts, SPLIT_4K_WIDTH, SPLIT_4K_HEIGHT, SplitVertical)
    then SplitVertical
    else active.experiment
  }

  /** A reconfiguration ends up split if and only if the target is exactly 4K and the
      stream is split already, or may be promoted: the Host can, the mode is automatic on
      UDP at 60 frames, and split is offered. A split stream at another size becomes
      automatic; every other mode stays. */
  lemma ReconfigureModeIff(active: ActiveStream, target: Target, capable: bool, adverts: seq<Advert>)
    ensures var mode := ResolveReconfigure(active, target, capable, adverts);
            && (mode == SplitVertical <==>
                  && target.width == 3840.0 && target.height == 2160.0
                  && (|| active.experiment == SplitVertical
                      || (capable && active.experiment == Auto && active.transport == Udp && target.fps == 60.0
                          && Offers(adverts, SplitVertical))))
            && (mode != SplitVertical ==> mode == if active.experiment == SplitVertical then Auto else active.experiment)
  {
  }

  datatype Action = Allow | DowngradeResolution | Block

  datatype Plan = Plan(allowed: bool, action: Action, currentSlots: nat, projectedSlots: nat, capacity: int)

  function StreamSlots(split: bool): nat { if split then SPLIT_DECODER_SLOTS else SINGLE_DECODER_SLOTS }

  function SlotsOf(streams: seq<bool>): nat {
    if streams == [] then 0 else StreamSlots(streams[0]) + SlotsOf(streams[1..])
  }

  /** The pure admission policy; a stream is represented by whether it is split. */
  function PlanAdmission(current: seq<bool>, split: bool, replacing: Option<bool>, capacity: int): Plan {
    var cap := if capacity >= 1 then capacity else 1;
    var released := if replacing.Some? then StreamSlots(replacing.value) else 0;
    var slots: nat := if SlotsOf(current) >= released then SlotsOf(current) - released else 0;
    if split && slots + SPLIT_DECODER_SLOTS <= cap then Plan(true, Allow, slots, slots + SPLIT_DECODER_SLOTS, cap)
    else if slots + SINGLE_DECODER_SLOTS <= cap
    then Plan(true, if split then DowngradeResolution else Allow, slots, slots + SINGLE_DECODER_SLOTS, cap)
    else Plan(false, Block, slots, slots + SINGLE_DECODER_SLOTS, cap)
  }

  lemma {:induction false} OneOfThem(streams: seq<bool>, k: nat)
    requires k < |streams|
    ensures SlotsOf(streams) >= StreamSlots(streams[k])
  {
    if k > 0 {
      OneOfThem(streams[1..], k - 1);
    }
  }

  /** Promoting a live stream among streams that fit the capacity is never blocked:
      it is allowed exactly when one more slot is free, and otherwise the stream
      keeps its single decoder. */
  lemma PromotionIsNeverBlocked(current: seq<bool>, k: nat, capacity: int)
    requires k < |current| && !current[k] && SlotsOf(current) <= capacity
    ensures var plan := PlanAdmission(current, true, Some(false), capacity);
            && plan.allowed && plan.projectedSlots <= capacity
            && (plan.action == Allow <==> SlotsOf(current) + 1 <= capacity)
            && (plan.action != Allow ==> plan.action == DowngradeResolution
                                         && plan.projectedSlots == SlotsOf(current))
  {
    OneOfThem(current, k);
  }

  /** The mode a reconfiguration prepares for: a promotion that the live streams
      leave no room for stays single. */
  function DesiredExperiment(
    active: ActiveStream, target: Target, capable: bool, adverts: seq<Advert>, budget: Option<seq<bool>>): Experiment
  {
    var resolved := ResolveReconfigure(active, target, capable, adverts);
    if resolved == SplitVertical && resolved != active.experiment && budget.Some?
       && PlanAdmission(budget.value, true, Some(active.experiment == SplitVertical), DEFAULT_DECODER_CAPACITY).action
          != Allow
    then Auto
    else resolved
  }

  /** A promotion to split among live streams that fit the default capacity goes ahead
      exactly when one more slot is free; otherwise the stream keeps its single path. */
  lemma PromotesIffThereIsRoom(
    active: ActiveStream, target: Target, capable: bool, adverts: seq<Advert>, current: seq<bool>, k: nat)
    requires ResolveReconfigure(active, target, capable, adverts) == SplitVertical != active.experiment
    requires k < |current| && !current[k] && SlotsOf(current) <= DEFAULT_DECODER_CAPACITY
    ensures DesiredExperiment(active, target, capable, adverts, Some(current)) ==
            if SlotsOf(current) + 1 <= DEFAULT_DECODER_CAPACITY then SplitVertical else Auto
  {
    PromotionIsNeverBlocked(current, k, DEFAULT_DECODER_CAPACITY);
  }

  datatype ReconfigureInput = ReconfigureInput(
    active: ActiveStream, target: Target, capable: bool, adverts: seq<Advert>, budget: Option<seq<bool>>,
    reservation: Option<Demand>)

  function Desired(input: ReconfigureInput): Experiment {
    DesiredExperiment(input.active, input.target, input.capable, input.adverts, input.budget)
  }

  /** Only a promotion to split is asked of the Host by name. */
  predicate Promotes(input: ReconfigureInput) {
    Desired(input) == SplitVertical && Desired(input) != input.active.experiment
  }

  predicate ReconfigureRefused(input: ReconfigureInput) {
    Trips(input.reservation, Desired(input), input.target)
  }

  predicate ReconfigureFallsBack(input: ReconfigureInput, world: ReconfigureWorld) {
    !world.firstPrepare && Promotes(input)
  }

  function FirstPrepared(input: ReconfigureInput, world: ReconfigureWorld): Experiment {
    if ReconfigureFallsBack(input, world) then Auto else Desired(input)
  }

  predicate FirstBound(input: ReconfigureInput, world: ReconfigureWorld) {
    if ReconfigureFallsBack(input, world) then world.fallbackPrepare else world.firstPrepare
  }

  /** The Host accepted split while single listeners are prepared. */
  predicate Mismatched(input: ReconfigureInput, world: ReconfigureWorld) {
    world.firstAnswer.Some? && world.firstAnswer.value.experiment == Some(SplitVertical)
    && FirstPrepared(input, world) != SplitVertical
  }

  /** Split is prepared in place of the single listeners. */
  predicate Resplits(input: ReconfigureInput, world: ReconfigureWorld) {
    !ReconfigureRefused(input) && FirstBound(input, world) && Mismatched(input, world)
    && (input.reservation.Some? ==> input.reservation.value.split)
  }

  /** The modes a reconfiguration prepares, in order. */
  function ReconfigureModes(input: ReconfigureInput, world: ReconfigureWorld): seq<Experiment> {
    if ReconfigureRefused(input) then []
    else (if ReconfigureFallsBack(input, world) then [SplitVertical, Auto] else [Desired(input)])
         + (if Resplits(input, world) then [SplitVertical] else [])
  }

  /** What the Host finally accepted, before the window is opened. */
  function Settled(input: ReconfigureInput, world: ReconfigureWorld): Result<HostAccepted, Failure>
    requires world.firstAnswer.Some?
  {
    if !Mismatched(input, world) then Ok(world.firstAnswer.value)
    else if input.reservation.Some? && !input.reservation.value.split then Err(ReservationExceeded)
    else if !world.splitPrepare then Err(ReprepareFailed)
    else if world.secondAnswer.None? then Err(HostRejected)
    else if world.secondAnswer.value.experiment.Some? && world.secondAnswer.value.experiment != Some(SplitVertical)
    then Err(SplitRejected)
    else Ok(world.secondAnswer.value)
  }

  function Attached(
    prepared: Experiment, accepted: HostAccepted, reservation: Option<Demand>, world: ReconfigureWorld)
    : Result<HostAccepted, Failure>
  {
    var experiment := if accepted.experiment.Some? then accepted.experiment.value else prepared;
    if Trips(reservation, experiment, accepted.target) then Err(ReservationExceeded)
    else if !world.open then Err(OpenFailed)
    else if !world.settings then Err(SettingFailed)
    else Ok(HostAccepted(accepted.session, Some(experiment), accepted.target))
  }

  function ReconfigureResult(input: ReconfigureInput, world: ReconfigureWorld): Result<HostAccepted, Failure> {
    if ReconfigureRefused(input) then Err(ReservationExceeded)
    else if !FirstBound(input, world) then Err(PrepareFailed)
    else if world.firstAnswer.None? then Err(HostRejected)
    else
      var settled := Settled(input, world);
      if settled.Err? then settled
      else Attached(if Mismatched(input, world) then SplitVertical else FirstPrepared(input, world), settled.value,
                    input.reservation, world)
  }

  /** The first two preparations stand outside the guarded part: when they fail, the
      last one is never cancelled. */
  predicate LastCancelled(input: ReconfigureInput, world: ReconfigureWorld) {
    ReconfigureResult(input, world).Err? && FirstBound(input, world) && world.finalCancel
  }

  /** Which cancellations were acknowledged. */
  function ReconfigureCancels(input: ReconfigureInput, world: ReconfigureWorld): (r: seq<bool>)
    ensures |r| == |ReconfigureModes(input, world)|
  {
    if ReconfigureRefused(input) then []
    else (if ReconfigureFallsBack(input, world) then [world.fallbackCancel] else [])
         + (if Resplits(input, world) then [world.settleCancel] else [])
         + [LastCancelled(input, world)]
  }

  function LeftByReconfigure(input: ReconfigureInput, world: ReconfigureWorld): set<Experiment> {
    LeftPrepared(ReconfigureModes(input, world), ReconfigureCancels(input, world))
  }

  lemma LeftByThree(one: bool, two: bool, three: bool)
    ensures LeftPrepared([SplitVertical, Auto, SplitVertical], [one, two, three])
         == (if two then {} else {Auto}) + (if three then {} else {SplitVertical})
  {
    assert [SplitVertical, Auto, SplitVertical][..2] == [SplitVertical, Auto] && [one, two, three][..2] == [one, two];
    LeftByTwo(SplitVertical, Auto, one, two);
  }

  /** The cancellations in order, for each shape a reconfiguration can take. */
  lemma LeftByShape(fallsBack: bool, first: Experiment, resplits: bool, one: bool, two: bool, last: bool)
    requires (fallsBack ==> first == Auto) && (resplits ==> first != SplitVertical)
    ensures LeftPrepared((if fallsBack then [SplitVertical, Auto] else [first]) + (if resplits then [SplitVertical] else []),
                         (if fallsBack then [one] else []) + (if resplits then [two] else []) + [last])
         == if resplits then (if two then {} else {first}) + (if last then {} else {SplitVertical})
            else (if fallsBack && !one then {SplitVertical} else {}) + (if last then {} else {first})
  {
    if resplits && fallsBack {
      LeftByThree(one, two, last);
      assert [SplitVertical, Auto] + [SplitVertical] == [SplitVertical, Auto, SplitVertical];
      assert [one] + [two] + [last] == [one, two, last];
    } else if resplits {
      LeftByTwo(first, SplitVertical, two, last);
      assert [] + [two] + [last] == [two, last];
    } else if fallsBack {
      LeftByTwo(SplitVertical, Auto, one, last);
      assert [SplitVertical, Auto] + [] == [SplitVertical, Auto] && [one] + [] + [last] == [one, last];
    } else {
      LeftByOne(first, last);
      assert [first] + [] == [first] && [] + [] + [last] == [last];
    }
  }

  lemma LeftByReconfigureIs(input: ReconfigureInput, world: ReconfigureWorld)
    requires !ReconfigureRefused(input)
    ensures var last := LastCancelled(input, world);
            var first := FirstPrepared(input, world);
            LeftByReconfigure(input, world) ==
              if Resplits(input, world)
              then (if world.settleCancel then {} else {first}) + (if last then {} else {SplitVertical})
              else (if ReconfigureFallsBack(input, world) && !world.fallbackCancel then {SplitVertical} else {})
                   + (if last then {} else {first})
  {
    LeftByShape(ReconfigureFallsBack(input, world), FirstPrepared(input, world), Resplits(input, world),
                world.fallbackCancel, world.settleCancel, LastCancelled(input, world));
  }

  /** A start prepares for split first if and only if the size is 4K, the Host offers
      split, and split was selected, or, over UDP, the automatic mode is offered and was
      selected, or the selected one is not offered. */
  lemma SplitIsStartedIff(args: StartArgs, adverts: seq<Advert>, attached: bool)
    ensures var w, h := args.target.width, args.target.height;
            var overUdp := args.transport == UdpRequested
                           || (!attached && (args.transport == AutoTransport || args.transport == OtherTransport));
            StartMode(args, adverts, attached) == SplitVertical <==>
              && w >= 3840.0 && h >= 2160.0 && Offers(adverts, SplitVertical)
              && (|| args.experiment == SplitVertical
                  || (overUdp && Offers(adverts, Auto) && (args.experiment == Auto || !Offers(adverts, args.experiment))))
  {
  }

  // ------------------------------------------------------- planned operations

  /** What a planned demand is: it fits beside the other leases, and it is the demand that
      was asked for or a single decoder below 4K. */
  lemma PlannedFacts(pool: Pool, d: Demand, replacing: Option<nat>)
    ensures var planned := FirstFit(pool, [d] + Ladder(d.target), replacing);
            planned.Some? ==>
              && Fits(pool, planned.value, replacing)
              && (planned.value == d
                  || (!planned.value.split && !Is4K(planned.value.target.width, planned.value.target.height)))
  {
    var candidates := [d] + Ladder(d.target);
    var planned := FirstFit(pool, candidates, replacing);
    DecoderInvariants.FirstFitFacts(pool, candidates, replacing);
    DecoderInvariants.LadderDescends(d.target);
    if planned.Some? {
      var k :| 0 <= k < |candidates| && candidates[k] == planned.value;
      assert k > 0 ==> candidates[k] == Ladder(d.target)[k - 1];
    }
  }

  /** A reconfiguration whose demand was planned in place of its own lease's never trips
      the assertion before its preparation, with or without a budget of live streams. */
  lemma PlannedReconfigureNeverTrips(
    pool: Pool, lease: nat, active: ActiveStream, target: Target, capable: bool, adverts: seq<Advert>,
    budget: Option<seq<bool>>)
    ensures var split := ResolveReconfigure(active, target, capable, adverts) == SplitVertical;
            var planned := FirstFit(pool, [Demand(split, target)] + Ladder(target), Some(lease));
            planned.Some? ==>
              !ReconfigureRefused(ReconfigureInput(active, planned.value.target, capable, adverts, budget, planned))
  {
    var split := ResolveReconfigure(active, target, capable, adverts) == SplitVertical;
    PlannedFacts(pool, Demand(split, target), Some(lease));
  }

  /** The demand a restore plans for: split when the stream runs split, or automatically
      at a 4K size. */
  function RestoreDemand(experiment: Experiment, target: Target): Demand {
    Demand(experiment == SplitVertical || (experiment == Auto && Is4K(target.width, target.height)), target)
  }

  /** The restored mode is no longer offered at 4K, but the automatic one and split are:
      the start selects split although a single decoder was planned. */
  predicate RestoreTurnsSplit(experiment: Experiment, adverts: seq<Advert>, target: Target, attached: bool) {
    && experiment != Auto && experiment != SplitVertical && Is4K(target.width, target.height) && !attached
    && !Available(adverts, target.width, target.height, experiment)
    && Available(adverts, target.width, target.height, Auto)
    && Available(adverts, target.width, target.height, SplitVertical)
  }

  function RestoreArgs(experiment: Experiment, target: Target): StartArgs { StartArgs(experiment, target, AutoTransport) }

  /** A restore whose demand was planned in place of its own lease's trips the assertion
      before its preparation exactly when its start turns split; it is refused for no
      other reason. */
  lemma PlannedRestoreTripsIff(
    pool: Pool, lease: nat, experiment: Experiment, adverts: seq<Advert>, target: Target, attached: bool)
    ensures var planned := FirstFit(pool, [RestoreDemand(experiment, target)] + Ladder(target), Some(lease));
            planned.Some? ==>
              StartRefusal(RestoreArgs(experiment, planned.value.target), adverts, planned, attached) ==
                if RestoreTurnsSplit(experiment, adverts, planned.value.target, attached) then Some(ReservationExceeded)
                else None
  {
    PlannedFacts(pool, RestoreDemand(experiment, target), Some(lease));
  }

  /** A pool that is full with one single-decoder stream at 4K. */
  const OneStreamPool :=
    Pool([Entry(0, Demand(false, Target4K), false, NotClosing, false)], Hint(Some(1.0), None, None), None, 1)

  /** An adaptive-quantizer stream at 4K, restored on a Host that stopped offering that
      mode: the restore is refused before it prepares anything. */
  lemma RestoreMayTrip()
    ensures FirstFit(OneStreamPool, [RestoreDemand(AdaptiveQp, Target4K)] + Ladder(Target4K), Some(0))
         == Some(RestoreDemand(AdaptiveQp, Target4K))
    ensures StartRefusal(RestoreArgs(AdaptiveQp, Target4K), SplitAdverts, Some(RestoreDemand(AdaptiveQp, Target4K)), false)
         == Some(ReservationExceeded)
  {
    SplitIsOffered();
    var entries := OneStreamPool.entries;
    assert entries[..0] == [];
    assert TotalSlots(entries, Some(0)) == 0 && TotalRate(entries, Some(0)) == 0.0;
    assert Fits(OneStreamPool, RestoreDemand(AdaptiveQp, Target4K), Some(0));
    PlannedRestoreTripsIff(OneStreamPool, 0, AdaptiveQp, SplitAdverts, Target4K, false);
  }

  /** Binds the listeners for a reconfiguration; a promotion whose split preparation
      fails falls back to the automatic mode and asks the Host for it by name. */
  method PrepareForReconfigure(port: Port, input: ReconfigureInput, world: ReconfigureWorld)
    returns (prepared: Experiment, requested: Option<Experiment>, ok: bool)
    requires port.Fresh()
    modifies port`listening, port`modes, port`uncancelled
    ensures prepared == FirstPrepared(input, world) && ok == FirstBound(input, world)
    ensures ok ==> port.listening == Some(prepared)
    ensures port.modes == if ReconfigureFallsBack(input, world) then [SplitVertical, Auto] else [Desired(input)]
    ensures port.uncancelled ==
            (if ReconfigureFallsBack(input, world) && !world.fallbackCancel then {SplitVertical} else {}) + {prepared}
    ensures requested == if Promotes(input) then Some(prepared) else None
  {
    var promotion := Promotes(input);
    prepared := Desired(input);
    requested := if promotion then Some(prepared) else None;
    port.Prepare(prepared, world.firstPrepare);
    ok := world.firstPrepare;
    if !ok && promotion {
      port.Cancel(prepared, world.fallbackCancel);
      prepared, requested := Auto, Some(Auto);
      port.Prepare(prepared, world.fallbackPrepare);
      ok := world.fallbackPrepare;
    }
  }

  /** When the Host accepted split on single listeners, cancels them, prepares split
      and reconfigures once more; otherwise keeps the preparation. */
  method SettleAccepted(port: Port, input: ReconfigureInput, world: ReconfigureWorld)
    returns (prepared: Experiment, outcome: Result<HostAccepted, Failure>)
    requires !ReconfigureRefused(input) && FirstBound(input, world) && world.firstAnswer.Some?
    requires port.listening == Some(FirstPrepared(input, world))
    modifies port`listening, port`modes, port`uncancelled, port`asked
    ensures outcome == Settled(input, world)
    ensures prepared == if Resplits(input, world) then SplitVertical else FirstPrepared(input, world)
    ensures outcome.Ok? ==> port.listening == Some(prepared)
    ensures outcome.Ok? && outcome.value.experiment == Some(SplitVertical) ==> prepared == SplitVertical
    ensures port.modes == old(port.modes) + if Resplits(input, world) then [SplitVertical] else []
    ensures port.uncancelled ==
            if !Resplits(input, world) then old(port.uncancelled)
            else old(port.uncancelled) - (if world.settleCancel then {FirstPrepared(input, world)} else {})
                 + {SplitVertical}
    ensures port.asked == old(port.asked)
         || (port.asked == old(port.asked) + [SplitVertical]
             && world.firstAnswer.value.experiment == Some(SplitVertical))
  {
    var answer := world.firstAnswer.value;
    prepared := FirstPrepared(input, world);
    if answer.experiment != Some(SplitVertical) || prepared == SplitVertical {
      return prepared, Ok(answer);
    }
    if input.reservation.Some? && !input.reservation.value.split {
      return prepared, Err(ReservationExceeded);
    }
    port.Cancel(prepared, world.settleCancel);
    prepared := SplitVertical;
    port.Prepare(prepared, world.splitPrepare);
    if !world.splitPrepare {
      return prepared, Err(ReprepareFailed);
    }
    port.asked := port.asked + [SplitVertical];
    if world.secondAnswer.None? {
      return prepared, Err(HostRejected);
    }
    if world.secondAnswer.value.experiment.Some? && world.secondAnswer.value.experiment.value != SplitVertical {
      return prepared, Err(SplitRejected);
    }
    outcome := Ok(world.secondAnswer.value);
  }

  /** The window on the settled listeners, or the first failure. */
  method AttachWindow(
    port: Port, prepared: Experiment, accepted: HostAccepted, reservation: Option<Demand>, world: ReconfigureWorld)
    returns (outcome: Result<HostAccepted, Failure>)
    requires port.windows == [] && port.listening == Some(prepared)
    requires accepted.experiment == Some(SplitVertical) ==> prepared == SplitVertical
    modifies port`windows
    ensures outcome == Attached(prepared, accepted, reservation, world)
    ensures Fitting(port.windows, reservation) && (outcome.Ok? ==> Shows(port.windows, outcome.value))
  {
    var experiment := if accepted.experiment.Some? then accepted.experiment.value else prepared;
    if Trips(reservation, experiment, accepted.target) {
      return Err(ReservationExceeded);
    }
    NotTripped(reservation, experiment, accepted.target);
    port.Open(experiment, accepted.target, world.open);
    if !world.open || !world.settings {
      return Err(if world.open then SettingFailed else OpenFailed);
    }
    outcome := Ok(HostAccepted(accepted.session, Some(experiment), accepted.target));
  }

  /** A whole reconfiguration, for every answer of the environment. A split window is
      asked for only on listeners prepared as split, every window only inside the
      reservation, and a mode is asked of the Host by name only when it advertised
      the capability or answered split itself. What stays prepared is exactly what
      no acknowledged cancellation followed. */
  method ReconfigurePreparedStream(port: Port, input: ReconfigureInput, world: ReconfigureWorld)
    returns (outcome: Result<HostAccepted, Failure>)
    requires port.Fresh()
    modifies port
    ensures outcome == ReconfigureResult(input, world)
    ensures port.modes == ReconfigureModes(input, world)
    ensures port.uncancelled == LeftByReconfigure(input, world)
    ensures Fitting(port.windows, input.reservation) && (outcome.Ok? ==> Shows(port.windows, outcome.value))
    ensures port.asked != [] ==>
              input.capable || (world.firstAnswer.Some? && world.firstAnswer.value.experiment == Some(SplitVertical))
    ensures |port.asked| <= 2
  {
    if Trips(input.reservation, Desired(input), input.target) {
      return Err(ReservationExceeded);
    }
    OnlyCapableHostsPromote(input);
    var prepared, requested, ok := PrepareForReconfigure(port, input, world);
    if !ok {
      LeftByFailedPrepare(input, world);
      return Err(PrepareFailed);
    }
    ModesAfterPrepare(input, world);
    if requested.Some? {
      port.asked := port.asked + [requested.value];
    }
    outcome := SettleAndAttach(port, input, world);
  }

  lemma OnlyCapableHostsPromote(input: ReconfigureInput)
    ensures Promotes(input) ==> input.capable
  {
  }

  lemma ModesAfterPrepare(input: ReconfigureInput, world: ReconfigureWorld)
    requires !ReconfigureRefused(input)
    ensures ReconfigureModes(input, world) ==
            (if ReconfigureFallsBack(input, world) then [SplitVertical, Auto] else [Desired(input)])
            + (if Resplits(input, world) then [SplitVertical] else [])
  {
  }

  lemma LeftByFailedPrepare(input: ReconfigureInput, world: ReconfigureWorld)
    requires !ReconfigureRefused(input) && !FirstBound(input, world)
    ensures ReconfigureResult(input, world) == Err(PrepareFailed)
    ensures ReconfigureModes(input, world) ==
            if ReconfigureFallsBack(input, world) then [SplitVertical, Auto] else [Desired(input)]
    ensures LeftByReconfigure(input, world) ==
            (if ReconfigureFallsBack(input, world) && !world.fallbackCancel then {SplitVertical} else {})
            + {FirstPrepared(input, world)}
  {
    LeftByReconfigureIs(input, world);
  }

  /** The guarded part, and after its first failure the last cancellation. */
  method SettleAndAttach(port: Port, input: ReconfigureInput, world: ReconfigureWorld)
    returns (outcome: Result<HostAccepted, Failure>)
    requires !ReconfigureRefused(input) && FirstBound(input, world)
    requires port.listening == Some(FirstPrepared(input, world)) && port.windows == []
    requires port.uncancelled ==
             (if ReconfigureFallsBack(input, world) && !world.fallbackCancel then {SplitVertical} else {})
             + {FirstPrepared(input, world)}
    modifies port`listening, port`modes, port`uncancelled, port`asked, port`windows
    ensures outcome == ReconfigureResult(input, world)
    ensures port.modes == old(port.modes) + if Resplits(input, world) then [SplitVertical] else []
    ensures port.uncancelled == LeftByReconfigure(input, world)
    ensures Fitting(port.windows, input.reservation) && (outcome.Ok? ==> Shows(port.windows, outcome.value))
    ensures port.asked == old(port.asked)
         || (port.asked == old(port.asked) + [SplitVertical]
             && world.firstAnswer.Some? && world.firstAnswer.value.experiment == Some(SplitVertical))
  {
    LeftByReconfigureIs(input, world);
    var prepared;
    prepared, outcome := Guarded(port, input, world);
    if outcome.Err? {
      port.Cancel(prepared, world.finalCancel);
    }
  }

  /** A split window is asked for only on listeners prepared as split, and every window
      only inside the reservation. */
  predicate Fitting(windows: seq<Window>, reservation: Option<Demand>) {
    forall w :: w in windows ==>
      (w.experiment == SplitVertical ==> w.listeners == Some(SplitVertical)) && WithinReserved(w, reservation)
  }

  /** One window is shown, in the mode and at the target that was accepted. */
  predicate Shows(windows: seq<Window>, accepted: HostAccepted) {
    && |windows| == 1 && windows[0].shown && windows[0].target == accepted.target
    && accepted.experiment == Some(windows[0].experiment)
  }

  /** The Host's answers and the window, up to the first failure. */
  method Guarded(port: Port, input: ReconfigureInput, world: ReconfigureWorld)
    returns (prepared: Experiment, outcome: Result<HostAccepted, Failure>)
    requires !ReconfigureRefused(input) && FirstBound(input, world)
    requires port.listening == Some(FirstPrepared(input, world)) && port.windows == []
    modifies port`listening, port`modes, port`uncancelled, port`asked, port`windows
    ensures outcome == ReconfigureResult(input, world)
    ensures prepared == if Resplits(input, world) then SplitVertical else FirstPrepared(input, world)
    ensures port.modes == old(port.modes) + if Resplits(input, world) then [SplitVertical] else []
    ensures port.uncancelled ==
            if !Resplits(input, world) then old(port.uncancelled)
            else old(port.uncancelled) - (if world.settleCancel then {FirstPrepared(input, world)} else {})
                 + {SplitVertical}
    ensures Fitting(port.windows, input.reservation) && (outcome.Ok? ==> Shows(port.windows, outcome.value))
    ensures port.asked == old(port.asked)
         || (port.asked == old(port.asked) + [SplitVertical]
             && world.firstAnswer.Some? && world.firstAnswer.value.experiment == Some(SplitVertical))
  {
    prepared := FirstPrepared(input, world);
    if world.firstAnswer.None? {
      return prepared, Err(HostRejected);
    }
    prepared, outcome := SettleAccepted(port, input, world);
    if outcome.Ok? {
      outcome := AttachWindow(port, prepared, outcome.value, input.reservation, world);
    }
  }

  /** A failed reconfiguration leaves nothing prepared exactly when it prepared
      nothing, or got past its first preparations and the cancellations that still
      count were acknowledged: the last one, and the one of the mode it was not asked
      to cancel again. */
  lemma FailedReconfigureLeavesNothingIff(input: ReconfigureInput, world: ReconfigureWorld)
    requires ReconfigureResult(input, world).Err?
    ensures LeftByReconfigure(input, world) == {} <==>
            || ReconfigureRefused(input)
            || (&& FirstBound(input, world) && world.finalCancel
                && if Resplits(input, world) then world.settleCancel
                   else ReconfigureFallsBack(input, world) ==> world.fallbackCancel)
  {
    if !ReconfigureRefused(input) {
      LeftByReconfigureIs(input, world);
    }
  }

  /** Known before the call: every failure leaves nothing prepared exactly when the
      reservation refuses the reconfiguration outright. */
  lemma EveryFailedReconfigureIsCleanIff(input: ReconfigureInput)
    ensures (forall world :: ReconfigureResult(input, world).Err? ==> LeftByReconfigure(input, world) == {})
            <==> ReconfigureRefused(input)
  {
    var nothing := ReconfigureWorld(false, false, false, None, false, false, None, false, false, false);
    FailedReconfigureLeavesNothingIff(input, nothing);
  }

  const ActiveAuto := ActiveStream(7, Auto, Udp)

  /** The first preparation, or the last one after a fallback, fails or succeeds; every
      cancellation but the one before a fallback is acknowledged. */
  function AlmostCleanWorld(fallbackCancel: bool): ReconfigureWorld {
    ReconfigureWorld(false, fallbackCancel, true, None, true, true, None, true, true, true)
  }

  /** A failed first preparation is never cancelled, so its listeners stay. */
  lemma FailedPreparationStays()
    ensures var input := ReconfigureInput(ActiveAuto, Target(1280.0, 720.0, 60.0), false, [], None, None);
            && ReconfigureResult(input, AlmostCleanWorld(true)) == Err(PrepareFailed)
            && LeftByReconfigure(input, AlmostCleanWorld(true)) == {Auto}
  {
    LeftByReconfigureIs(ReconfigureInput(ActiveAuto, Target(1280.0, 720.0, 60.0), false, [], None, None),
                        AlmostCleanWorld(true));
  }

  const Promoted4K := ReconfigureInput(ActiveAuto, Target4K, true, SplitAdverts, None, None)

  lemma PromotionTo4K()
    ensures Desired(Promoted4K) == SplitVertical && !ReconfigureRefused(Promoted4K)
  {
    SplitIsOffered();
  }

  /** A refused cancellation before the fallback is not repeated. */
  lemma RefusedCancelStays()
    ensures ReconfigureResult(Promoted4K, AlmostCleanWorld(false)) == Err(HostRejected)
            && LeftByReconfigure(Promoted4K, AlmostCleanWorld(false)) == {SplitVertical}
  {
    PromotionTo4K();
    LeftByReconfigureIs(Promoted4K, AlmostCleanWorld(false));
  }

  /** Two failures after which the listeners stay although every cancellation that
      was issued was acknowledged, or the last one was. */
  lemma FailedReconfigureMayLeaveListeners()
    ensures var plain := ReconfigureInput(ActiveAuto, Target(1280.0, 720.0, 60.0), false, [], None, None);
            && ReconfigureResult(plain, AlmostCleanWorld(true)) == Err(PrepareFailed)
            && LeftByReconfigure(plain, AlmostCleanWorld(true)) == {Auto}
            && ReconfigureResult(Promoted4K, AlmostCleanWorld(false)) == Err(HostRejected)
            && LeftByReconfigure(Promoted4K, AlmostCleanWorld(false)) == {SplitVertical}
  {
    FailedPreparationStays();
    RefusedCancelStays();
  }

  /** The Host's last answer: the second one when split was prepared in its place. */
  function LastAnswer(input: ReconfigureInput, world: ReconfigureWorld): Option<HostAccepted> {
    if Resplits(input, world) then world.secondAnswer else world.firstAnswer
  }

  /** A reconfiguration succeeds if and only if it is not refused, its listeners are bound,
      also for split where the Host accepted split on single ones, the Host's last answer
      is one these listeners can show inside the reservation, and the window and its
      settings succeed. It then reports that answer's session and target, and its mode or
      else the prepared one. */
  lemma ReconfigureSucceedsIff(input: ReconfigureInput, world: ReconfigureWorld)
    ensures var result, last := ReconfigureResult(input, world), LastAnswer(input, world);
            var prepared := if Resplits(input, world) then SplitVertical else FirstPrepared(input, world);
            && (result.Ok? <==>
                  && !ReconfigureRefused(input) && FirstBound(input, world) && last.Some?
                  && (Mismatched(input, world) ==>
                        && (input.reservation.Some? ==> input.reservation.value.split) && world.splitPrepare
                        && (last.value.experiment.Some? ==> last.value.experiment == Some(SplitVertical)))
                  && !Trips(input.reservation, if last.value.experiment.Some? then last.value.experiment.value else prepared,
                            last.value.target)
                  && world.open && world.settings)
            && (result.Ok? ==>
                  && result.value.session == last.value.session && result.value.target == last.value.target
                  && result.value.experiment ==
                       Some(if last.value.experiment.Some? then last.value.experiment.value else prepared))
  {
  }

  // ------------------------------------------------- what a reserved run returns

  /** A start or reconfiguration run under a reservation, with every answer of the
      environment: the operations that may run on a lease. The launch and the restore
      start the reserved target; a reconfiguration aims at it. */
  datatype Operation =
    | Launching(experiment: Experiment, transport: RequestedTransport, adverts: seq<Advert>, started: StartWorld)
    | Reconfiguring(
        active: ActiveStream, capable: bool, adverts: seq<Advert>, budget: Option<seq<bool>>,
        reconfigured: ReconfigureWorld)

  /** The session and the demand an operation reports back to its reservation. */
  datatype Accepted = Accepted(session: nat, demand: Demand)

  /** What an operation run for a reserved demand reports, or nothing if it failed. */
  function Reported(reserved: Demand, op: Operation): Option<Accepted> {
    match op
    case Launching(experiment, transport, adverts, world) =>
      var result := StartResult(StartArgs(experiment, reserved.target, transport), adverts, Some(reserved), world);
      if result.Err? then None
      else Some(Accepted(result.value.session, ShapeOf(result.value.experiment, result.value.target)))
    case Reconfiguring(active, capable, adverts, budget, world) =>
      var result :=
        ReconfigureResult(ReconfigureInput(active, reserved.target, capable, adverts, budget, Some(reserved)), world);
      if result.Err? then None
      else Some(Accepted(result.value.session,
                         Demand(result.value.experiment == Some(SplitVertical), result.value.target)))
  }

  /** Whatever the Host and the native side answer, what an operation reports is
      inside its reservation and has a positive pixel rate. */
  lemma ReportedIsReserved(reserved: Demand, op: Operation)
    requires Reported(reserved, op).Some?
    ensures var d := Reported(reserved, op).value.demand;
            WithinReservation(d, reserved) && Rate(d.target) > 0.0
  {
    var d := Reported(reserved, op).value.demand;
    var e := if d.split then SplitVertical else Auto;
    assert !Trips(Some(reserved), e, d.target);
    NotTripped(Some(reserved), e, d.target);
    assert WithinReserved(Window(e, d.target, None, true), Some(reserved));
  }

  /** A launch reports the Host's session, and the target as the Host answered it for the
      reserved one; a reconfiguration the session and target of the Host's last answer. */
  lemma ReportedIsTheAnswer(reserved: Demand, op: Operation)
    requires Reported(reserved, op).Some?
    ensures var r := Reported(reserved, op).value;
            match op
            case Launching(_, _, _, world) =>
              world.answer.Some? && r.session == world.answer.value.session
              && AsAnswered(r.demand.target, world.answer.value, reserved.target)
            case Reconfiguring(active, capable, adverts, budget, world) =>
              var last := LastAnswer(ReconfigureInput(active, reserved.target, capable, adverts, budget, Some(reserved)), world);
              last.Some? && r.session == last.value.session && r.demand.target == last.value.target
  {
    match op
    case Launching(experiment, transport, adverts, world) =>
      if world.answer.Some? {
        var args := StartArgs(experiment, reserved.target, transport);
        OnlyOneTargetIsAnswered(world.answer.value, args, AcceptedTarget(world.answer.value, args));
      }
    case Reconfiguring(active, capable, adverts, budget, world) =>
      ReconfigureSucceedsIff(ReconfigureInput(active, reserved.target, capable, adverts, budget, Some(reserved)), world);
  }
}

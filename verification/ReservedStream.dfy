/** One native port incarnation and its decoder lease
    (apps/viewer-expo/src/reserved-stream.ts): runs whose native calls are guarded, and
    a cleanup whose native acknowledgements alone release the lease. */
module ReservedStream {
  import opened Wrappers
  import opened DecoderBudget
  import opened EncoderExperiments
  import opened LaunchStream

  /** Which acknowledgements the launcher offers: it reports the generation of a
      renderer, and it closes a renderer of a given generation. */
  datatype Launcher = Launcher(reports: bool, closes: bool)

  predicate Acknowledges(l: Launcher) { l.reports && l.closes }

  /** What the stream knows of its renderer; a captured report names no generation
      when nothing was open. */
  datatype Generation = Unknown | Captured(renderer: Option<nat>)

  /** The pending run: its work, then the report of the generation. */
  datatype Work = Resting | Running(demand: Demand) | Capturing(accepted: Demand)

  /** The pending cleanup, by the answer it waits for. */
  datatype Cleanup = NoCleanup | HostStop | GenerationReport | RendererClose(generation: nat) | PreparationCancel

  /** The port as it really is: the open renderer, a window still to appear, and the
      modes prepared and not acknowledged as cancelled. */
  datatype NativePort = NativePort(renderer: Option<nat>, opening: bool, prepared: set<Experiment>)

  /** `calls` counts the preparations and windows asked of the launcher. */
  datatype Stream = Stream(
    launcher: Launcher, latest: Option<nat>, generation: Generation, attempted: bool, preparedExperiment: Experiment,
    work: Work, cleanup: Cleanup, native: NativePort, calls: nat)

  function NewStream(launcher: Launcher): Stream {
    Stream(launcher, None, Unknown, false, Auto, Resting, NoCleanup, NativePort(None, false, {}), 0)
  }

  datatype Turn =
    | RunStarts(demand: Demand)
    | PrepareCalled(experiment: Experiment)
    | PreparationCancelled(experiment: Experiment)
    | OpenCalled
    | WindowAppears(generation: nat)
    | WindowGone
    | WorkEnds(op: Operation)
    | GenerationCaptured(ok: bool)
    | CloseCalled
    | CleanupBegins
    | HostStopSettles
    | GenerationReported(ok: bool)
    | RendererClosed(ok: bool)
    | PreparationGone(ok: bool)

  /** The stream after a turn, and what the turn does to its lease, in order. */
  datatype Effect = Effect(stream: Stream, onLease: seq<Event>)

  function Unchanged(s: Stream): Effect { Effect(s, []) }

  function CleanupFails(lease: nat, s: Stream): Effect { Effect(s.(cleanup := NoCleanup), [CleanupFailed(lease)]) }

  function CloseNext(s: Stream, renderer: Option<nat>): Stream {
    s.(cleanup := if renderer.Some? then RendererClose(renderer.value) else PreparationCancel)
  }

  /** After the Host was asked to stop, which is best effort: the renderer generation
      is closed if the launcher can acknowledge it; otherwise nothing confirms the
      cleanup of a stream on which work was attempted. */
  function AfterHostStop(lease: nat, s: Stream): Effect {
    if Acknowledges(s.launcher) then
      Effect(if s.generation == Unknown then s.(cleanup := GenerationReport) else CloseNext(s, s.generation.renderer), [])
    else if s.attempted then CleanupFails(lease, s)
    else Effect(s.(cleanup := PreparationCancel), [])
  }

  /** The work of a run came back. */
  function AfterWork(lease: nat, s: Stream, reported: Option<Accepted>): Effect {
    if reported.None? then Effect(s.(work := Resting), [WorkFailed(lease)])
    else
      var published := s.(latest := Some(reported.value.session));
      if s.launcher.reports then Effect(published.(work := Capturing(reported.value.demand)), [])
      else Effect(published.(work := Resting), [WorkSucceeded(lease, reported.value.demand)])
  }

  function WithNative(s: Stream, native: NativePort): Stream { s.(native := native) }

  /** Whether a turn does anything where the stream and its lease stand. */
  predicate Takes(lease: nat, s: Stream, p: Pool, turn: Turn) {
    match turn
    case RunStarts(demand) => CanStart(p, lease, demand)
    case PrepareCalled(_) => s.work.Running? && IsOpen(p, lease)
    case PreparationCancelled(_) => s.work.Running?
    case OpenCalled => s.work.Running? && IsOpen(p, lease)
    case WindowAppears(_) => s.work.Running? && s.native.opening
    case WindowGone => true
    case WorkEnds(_) => s.work.Running?
    case GenerationCaptured(_) => s.work.Capturing?
    case CloseCalled => true
    case CleanupBegins => Effective(p, BeginCleanup(lease))
    case HostStopSettles => s.cleanup == HostStop
    case GenerationReported(_) => s.cleanup == GenerationReport
    case RendererClosed(_) => s.cleanup.RendererClose?
    case PreparationGone(_) => s.cleanup == PreparationCancel
  }

  function React(lease: nat, s: Stream, p: Pool, turn: Turn): Effect {
    if !Takes(lease, s, p, turn) then Unchanged(s)
    else
      var n := s.native;
      match turn
      case RunStarts(demand) =>
        Effect(s.(attempted := true, generation := Unknown, work := Running(demand), native := n.(opening := false)),
               [StartWork(lease, demand)])
      case PrepareCalled(experiment) =>
        Effect(s.(preparedExperiment := experiment, calls := s.calls + 1,
                  native := n.(prepared := n.prepared + {experiment})), [])
      case PreparationCancelled(experiment) => Effect(WithNative(s, n.(prepared := n.prepared - {experiment})), [])
      case OpenCalled => Effect(s.(calls := s.calls + 1, native := n.(opening := true)), [])
      case WindowAppears(generation) => Effect(WithNative(s, n.(renderer := Some(generation))), [])
      case WindowGone => Effect(WithNative(s, n.(renderer := None)), [])
      case WorkEnds(op) => AfterWork(lease, s, Reported(s.work.demand, op))
      case GenerationCaptured(ok) =>
        if !ok then Effect(s.(work := Resting), [WorkFailed(lease)])
        else Effect(s.(generation := Captured(n.renderer), work := Resting), [WorkSucceeded(lease, s.work.accepted)])
      case CloseCalled => Effect(s, [RequestClose(lease)])
      case CleanupBegins =>
        var next := if s.latest.Some? then Effect(s.(cleanup := HostStop), []) else AfterHostStop(lease, s);
        next.(onLease := [BeginCleanup(lease)] + next.onLease)
      case HostStopSettles => AfterHostStop(lease, s)
      case GenerationReported(ok) => if ok then Effect(CloseNext(s, n.renderer), []) else CleanupFails(lease, s)
      case RendererClosed(ok) =>
        if !ok then CleanupFails(lease, s)
        else
          var renderer := if n.renderer == Some(s.cleanup.generation) then None else n.renderer;
          Effect(s.(cleanup := PreparationCancel, native := n.(renderer := renderer)), [])
      case PreparationGone(ok) =>
        if !ok then CleanupFails(lease, s)
        else Effect(s.(cleanup := NoCleanup, native := n.(prepared := n.prepared - {s.preparedExperiment})),
                    [CleanupSucceeded(lease)])
  }

  /** A stream together with the pool its lease is in. */
  datatype Owned = Owned(stream: Stream, pool: Pool)

  function Take(lease: nat, o: Owned, turn: Turn): Owned {
    var effect := React(lease, o.stream, o.pool, turn);
    Owned(effect.stream, DecoderBudget.Run(o.pool, effect.onLease))
  }

  lemma OneOnLease(p: Pool, e: Event)
    ensures DecoderBudget.Run(p, [e]) == DecoderBudget.Step(p, e)
    ensures DecoderBudget.Run(p, []) == p
  {
    assert [e][1..] == [];
  }

  lemma TwoOnLease(p: Pool, e: Event, f: Event)
    ensures DecoderBudget.Run(p, [e, f]) == DecoderBudget.Step(DecoderBudget.Step(p, e), f)
    ensures [e] + [f] == [e, f]
  {
    assert [e, f][1..] == [f];
    OneOnLease(DecoderBudget.Step(p, e), f);
  }

  // ---------------------------------------------------- the stream, in place

  class Reservation {
    const pool: DecoderReservations
    const lease: nat
    const launcher: Launcher
    var latest: Option<nat>
    var generation: Generation
    var attempted: bool
    var preparedExperiment: Experiment
    var work: Work
    var cleanup: Cleanup
    var native: NativePort
    var calls: nat

    ghost function Model(): Stream
      reads this
    {
      Stream(launcher, latest, generation, attempted, preparedExperiment, work, cleanup, native, calls)
    }

    ghost function Both(): Owned
      reads this, pool
    {
      Owned(Model(), pool.Model())
    }

    constructor (pool: DecoderReservations, lease: nat, launcher: Launcher)
      ensures this.pool == pool && this.lease == lease && Model() == NewStream(launcher)
    {
      this.pool, this.lease, this.launcher := pool, lease, launcher;
      latest, generation, attempted, preparedExperiment := None, Unknown, false, Auto;
      work, cleanup, native, calls := Resting, NoCleanup, NativePort(None, false, {}), 0;
    }

    /** The synchronous part of a run; nothing is marked when the pool refuses it. */
    method StartsRun(demand: Demand) returns (started: bool)
      modifies this, pool
      ensures Both() == Take(lease, old(Both()), RunStarts(demand))
      ensures started <==> old(CanStart(pool.Model(), lease, demand))
    {
      ghost var p := pool.Model();
      started := pool.StartRun(lease, demand);
      if started {
        attempted, generation, work, native := true, Unknown, Running(demand), native.(opening := false);
      }
      OneOnLease(p, StartWork(lease, demand));
    }

    /** The guarded preparation: refused once the stream was stopped. */
    method Prepare(experiment: Experiment) returns (asked: bool)
      requires work.Running?
      modifies this
      ensures Both() == Take(lease, old(Both()), PrepareCalled(experiment))
      ensures asked <==> IsOpen(pool.Model(), lease)
    {
      asked := IsOpen(Pool(pool.entries, pool.hint, pool.capacityOverlay, pool.nextLease), lease);
      if asked {
        preparedExperiment, calls := experiment, calls + 1;
        native := native.(prepared := native.prepared + {experiment});
      }
    }

    /** The guarded window: refused once the stream was stopped. */
    method Open() returns (asked: bool)
      requires work.Running?
      modifies this
      ensures Both() == Take(lease, old(Both()), OpenCalled)
      ensures asked <==> IsOpen(pool.Model(), lease)
    {
      asked := IsOpen(Pool(pool.entries, pool.hint, pool.capacityOverlay, pool.nextLease), lease);
      if asked {
        calls, native := calls + 1, native.(opening := true);
      }
    }

    /** The work came back: publishes its session, then waits for the report of the
        renderer generation where the launcher can give one. */
    method WorkReturns(op: Operation)
      requires work.Running?
      modifies this, pool
      ensures Both() == Take(lease, old(Both()), WorkEnds(op))
    {
      ghost var p := pool.Model();
      var reported := Reported(work.demand, op);
      if reported.None? {
        work := Resting;
        var _ := pool.FinishRun(lease, None);
        OneOnLease(p, WorkFailed(lease));
        return;
      }
      latest := Some(reported.value.session);
      if launcher.reports {
        work := Capturing(reported.value.demand);
      } else {
        work := Resting;
        var _ := pool.FinishRun(lease, Some(reported.value.demand));
        OneOnLease(p, WorkSucceeded(lease, reported.value.demand));
      }
    }

    method GenerationArrives(ok: bool)
      requires work.Capturing?
      modifies this, pool
      ensures Both() == Take(lease, old(Both()), GenerationCaptured(ok))
    {
      ghost var p := pool.Model();
      var accepted := work.accepted;
      work := Resting;
      if ok {
        generation := Captured(native.renderer);
      }
      var _ := pool.FinishRun(lease, if ok then Some(accepted) else None);
      OneOnLease(p, if ok then WorkSucceeded(lease, accepted) else WorkFailed(lease));
    }

    /** A close, at any time: stops the stream at once and waits for the pending work. */
    method Close()
      modifies this, pool
      ensures Both() == Take(lease, old(Both()), CloseCalled)
    {
      ghost var p := pool.Model();
      pool.Close(lease);
      OneOnLease(p, RequestClose(lease));
    }

    /** The pending work is over: asks the Host to stop a published session. */
    method BeginsCleanup()
      modifies this, pool
      ensures Both() == Take(lease, old(Both()), CleanupBegins)
    {
      ghost var p, before := pool.Model(), Model();
      var i := Find(pool.entries, lease);
      if i == |pool.entries| || pool.entries[i].closing != AwaitingWork || pool.entries[i].busy {
        return;
      }
      pool.StartCleanup(lease);
      ghost var begun := pool.Model();
      OneOnLease(p, BeginCleanup(lease));
      TwoOnLease(p, BeginCleanup(lease), CleanupFailed(lease));
      OneOnLease(begun, CleanupFailed(lease));
      if latest.Some? {
        cleanup := HostStop;
        assert [BeginCleanup(lease)] + [] == [BeginCleanup(lease)];
      } else {
        assert [BeginCleanup(lease)] + [] == [BeginCleanup(lease)];
        ContinueCleanup();
      }
    }

    /** The Host answered the stop, or did not. */
    method HostStopped()
      requires cleanup == HostStop
      modifies this, pool
      ensures Both() == Take(lease, old(Both()), HostStopSettles)
    {
      OneOnLease(pool.Model(), CleanupFailed(lease));
      ContinueCleanup();
    }

    method ContinueCleanup()
      modifies this, pool
      ensures var effect := AfterHostStop(lease, old(Model()));
              Model() == effect.stream && pool.Model() == DecoderBudget.Run(old(pool.Model()), effect.onLease)
    {
      ghost var p := pool.Model();
      OneOnLease(p, CleanupFailed(lease));
      if launcher.reports && launcher.closes {
        match generation
        case Unknown => cleanup := GenerationReport;
        case Captured(renderer) =>
          cleanup := if renderer.Some? then RendererClose(renderer.value) else PreparationCancel;
      } else if attempted {
        cleanup := NoCleanup;
        pool.FinishCleanup(lease, false);
      } else {
        cleanup := PreparationCancel;
      }
    }

    /** The launcher named the generation of the renderer, or failed to. */
    method GenerationNamed(ok: bool)
      requires cleanup == GenerationReport
      modifies this, pool
      ensures Both() == Take(lease, old(Both()), GenerationReported(ok))
    {
      OneOnLease(pool.Model(), CleanupFailed(lease));
      if ok {
        cleanup := if native.renderer.Some? then RendererClose(native.renderer.value) else PreparationCancel;
      } else {
        cleanup := NoCleanup;
        pool.FinishCleanup(lease, false);
      }
    }

    /** The launcher acknowledged that the renderer is gone, or refused. */
    method RendererAnswered(ok: bool)
      requires cleanup.RendererClose?
      modifies this, pool
      ensures Both() == Take(lease, old(Both()), RendererClosed(ok))
    {
      OneOnLease(pool.Model(), CleanupFailed(lease));
      if ok {
        if native.renderer == Some(cleanup.generation) {
          native := native.(renderer := None);
        }
        cleanup := PreparationCancel;
      } else {
        cleanup := NoCleanup;
        pool.FinishCleanup(lease, false);
      }
    }

    /** The last preparation was cancelled: the lease is released. Otherwise it stays. */
    method PreparationAnswered(ok: bool)
      requires cleanup == PreparationCancel
      modifies this, pool
      ensures Both() == Take(lease, old(Both()), PreparationGone(ok))
    {
      OneOnLease(pool.Model(), if ok then CleanupSucceeded(lease) else CleanupFailed(lease));
      cleanup := NoCleanup;
      if ok {
        native := native.(prepared := native.prepared - {preparedExperiment});
      }
      pool.FinishCleanup(lease, ok);
    }
  }
}

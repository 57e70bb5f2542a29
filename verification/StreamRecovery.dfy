/** The recovery controller of native stream windows
    (apps/viewer-expo/src/stream-recovery.ts, stream-termination-policy.ts): native
    events, backoff timers and restores that finish late share one bounded episode. */
module StreamRecovery {
  import opened Wrappers

  const MAX_RESTORE_ATTEMPTS := 5
  const RESTORE_BACKOFF_BASE_MS := 2_000
  const RESTORE_BACKOFF_MAX_MS := 30_000

  /** The four fields that make two streams the same lifetime. */
  datatype Window = Window(session: nat, port: nat, startedAt: nat, reservation: Option<nat>)

  /** `owner` is the selection captured when the episode began. */
  datatype Episode = Episode(active: Window, owner: nat, attempts: nat, generation: Option<nat>, retired: bool)

  datatype Timer = Timer(id: nat, episode: nat, failedRetry: bool, delay: nat, window: Window, generation: Option<nat>)

  /** A call of `restore`, suspended until `done`. */
  datatype Restore = Restore(window: Window, episode: nat, done: bool)

  datatype State = State(
    windows: seq<Window>,
    native: map<nat, nat>,
    selected: bool,
    owner: nat,
    episodes: seq<Episode>,
    table: map<nat, nat>,
    pending: map<nat, Timer>,
    claims: set<nat>,
    external: set<nat>,
    restores: seq<Restore>,
    nextTimer: nat,
    subscribed: bool)

  const Initial := State([], map[], true, 0, [], map[], map[], {}, {}, [], 0, false)

  datatype Failure = Cancelled | Fatal | Retryable

  datatype Event =
    | Native(port: nat, reason: nat, generation: Option<nat>)
    | TimerFires(port: nat, timer: nat)
    | RestoreSucceeds(restore: nat, session: nat, now: nat)
    | RestoreFails(restore: nat, failure: Failure)
    | UpdateWindows(windows: seq<Window>)
    | ChangeSelection(selected: bool)
    | ChangeGeneration(reservation: nat, native: nat)
    | ExternalClaim(session: nat)
    | ExternalRelease(session: nat)

  function Pow2(n: nat): nat {
    if n == 0 then 1 else 2 * Pow2(n - 1)
  }

  function RestoreBackoffDelayMs(repeatIndex: nat): nat {
    if repeatIndex == 0 then 0
    else
      var delay := RESTORE_BACKOFF_BASE_MS * Pow2(repeatIndex - 1);
      if delay < RESTORE_BACKOFF_MAX_MS then delay else RESTORE_BACKOFF_MAX_MS
  }

  function Generation(s: State, w: Window): Option<nat> {
    if w.reservation.Some? && w.reservation.value in s.native then Some(s.native[w.reservation.value]) else None
  }

  predicate IsCurrent(s: State, w: Window, owner: nat) {
    s.selected && owner == s.owner && w in s.windows
  }

  function OnPort(windows: seq<Window>, port: nat): seq<Window> {
    if windows == [] then []
    else (if windows[0].port == port then [windows[0]] else []) + OnPort(windows[1..], port)
  }

  function OffPort(windows: seq<Window>, port: nat): seq<Window> {
    if windows == [] then []
    else (if windows[0].port == port then [] else [windows[0]]) + OffPort(windows[1..], port)
  }

  function Replaced(windows: seq<Window>, was: Window, now: Window): seq<Window> {
    seq(|windows|, i requires 0 <= i < |windows| => if windows[i] == was then now else windows[i])
  }

  /** The only window of a port, unless a restore of its session is in flight. */
  function Recoverable(s: State, port: nat): Option<Window> {
    var matching := OnPort(s.windows, port);
    if |matching| != 1 || matching[0].session in s.claims then None else Some(matching[0])
  }

  predicate Stale(s: State, e: Episode) {
    || !IsCurrent(s, e.active, e.owner)
    || (e.generation != Generation(s, e.active) && e.active.session !in s.claims)
  }

  predicate StaleAt(s: State, port: nat) {
    port in s.table && s.table[port] < |s.episodes| && Stale(s, s.episodes[s.table[port]])
  }

  function StalePorts(s: State): set<nat> {
    set port | port in s.table && StaleAt(s, port)
  }

  function Drop(s: State, ports: set<nat>): State {
    s.(table := s.table - ports, pending := s.pending - ports)
  }

  /** The store listener: stale episodes go, together with their timers. */
  function Sync(s: State): State {
    Drop(s, StalePorts(s)).(subscribed := s.windows != [])
  }

  function SetEpisode(s: State, id: nat, e: Episode): State
    requires id < |s.episodes|
  {
    s.(episodes := s.episodes[id := e])
  }

  function Retire(s: State, id: nat, report: bool): State
    requires id < |s.episodes|
  {
    var e := s.episodes[id];
    var r := SetEpisode(s, id, e.(retired := true)).(pending := s.pending - {e.active.port});
    if report then Sync(r) else r
  }

  function CallRestore(s: State, id: nat): State
    requires id < |s.episodes|
  {
    var e := s.episodes[id];
    SetEpisode(s, id, e.(attempts := e.attempts + 1))
      .(claims := s.claims + {e.active.session}, restores := s.restores + [Restore(e.active, id, false)])
  }

  function BeginRestore(s: State, id: nat, port: nat): State
    requires id < |s.episodes|
  {
    var e := s.episodes[id];
    if e.retired || !IsCurrent(s, e.active, e.owner) || e.generation != Generation(s, e.active) then s
    else if e.attempts >= MAX_RESTORE_ATTEMPTS then Retire(s, id, true)
    else if Recoverable(s, port) != Some(e.active) then s
    else CallRestore(s, id)
  }

  function ScheduleRestore(s: State, id: nat, failedRetry: bool): State
    requires id < |s.episodes|
  {
    var e := s.episodes[id];
    if e.retired || !IsCurrent(s, e.active, e.owner) || e.active.port in s.pending then s
    else
      s.(pending := s.pending[e.active.port :=
           Timer(s.nextTimer, id, failedRetry, RestoreBackoffDelayMs(e.attempts), e.active, Generation(s, e.active))],
         nextTimer := s.nextTimer + 1)
  }

  /** The episode of a port, dropped when it no longer fits its window. */
  function Refreshed(s: State, port: nat): State {
    if port in s.table && s.table[port] < |s.episodes| then
      var e := s.episodes[s.table[port]];
      if !IsCurrent(s, e.active, e.owner) || e.generation != Generation(s, e.active) then Drop(s, {port}) else s
    else s
  }

  function StartEpisode(s: State, port: nat, w: Window): State {
    if port in s.table || !s.selected then s
    else
      s.(episodes := s.episodes + [Episode(w, s.owner, 0, Generation(s, w), false)],
         table := s.table[port := |s.episodes|])
  }

  /** What an event does to the episode of its port. */
  function Recover(s: State, id: nat, port: nat): State
    requires id < |s.episodes|
  {
    if s.episodes[id].retired then s
    else if port in s.pending then
      if !s.pending[port].failedRetry then s
      else BeginRestore(s.(pending := s.pending - {port}), id, port)
    else if RestoreBackoffDelayMs(s.episodes[id].attempts) == 0 then BeginRestore(s, id, port)
    else ScheduleRestore(s, id, false)
  }

  function OnEvent(s: State, port: nat, reason: nat, generation: Option<nat>): State {
    var matching := OnPort(s.windows, port);
    if port < 1 || port > 65535 || |matching| != 1 then s
    else
      var expected := Generation(s, matching[0]);
      if generation.Some? && expected.Some? && generation != expected then s
      else if reason == 0 then Sync(s.(windows := OffPort(s.windows, port)))
      else if reason !in {1, 4, 5} || Recoverable(s, port).None? then s
      else
        var r := StartEpisode(Refreshed(s, port), port, matching[0]);
        if port in r.table && r.table[port] < |r.episodes| then Recover(r, r.table[port], port) else r
  }

  function FireTimer(s: State, port: nat, timer: nat): State {
    if port !in s.pending || s.pending[port].id != timer || s.pending[port].episode >= |s.episodes| then s
    else
      var t := s.pending[port];
      var e := s.episodes[t.episode];
      var r := s.(pending := s.pending - {port});
      if IsCurrent(s, t.window, e.owner) && t.window == e.active && Generation(s, t.window) == t.generation
      then BeginRestore(r, t.episode, port) else r
  }

  /** The `finally` of a restore: its claim is released. */
  function Release(s: State, i: nat): State
    requires i < |s.restores|
  {
    s.(claims := s.claims - {s.restores[i].window.session}, restores := s.restores[i := s.restores[i].(done := true)])
  }

  predicate Unfinished(s: State, i: nat) {
    i < |s.restores| && !s.restores[i].done && s.restores[i].episode < |s.episodes|
  }

  predicate Owns(s: State, i: nat)
    requires Unfinished(s, i)
  {
    IsCurrent(s, s.restores[i].window, s.episodes[s.restores[i].episode].owner)
  }

  function Publish(s: State, i: nat, session: nat, now: nat): State
    requires Unfinished(s, i)
  {
    var was, id := s.restores[i].window, s.restores[i].episode;
    var restored := Window(session, was.port, now, was.reservation);
    var e := s.episodes[id].(active := restored, generation := Generation(s, restored));
    Sync(SetEpisode(s, id, e).(windows := Replaced(s.windows, was, restored)))
  }

  function Succeed(s: State, i: nat, session: nat, now: nat): State
    requires Unfinished(s, i)
  {
    if Owns(s, i) then Release(Publish(s, i, session, now), i) else Release(s, i)
  }

  /** How a failure of owned work is handled. */
  function Handled(s: State, id: nat, failure: Failure): State
    requires id < |s.episodes|
  {
    match failure
    case Cancelled => Retire(s, id, false)
    case Fatal => Retire(Sync(s), id, false)
    case Retryable =>
      var reported := Sync(s);
      if reported.episodes[id].attempts >= MAX_RESTORE_ATTEMPTS then Retire(reported, id, true)
      else ScheduleRestore(reported, id, true)
  }

  /** The episode notes the native generation its failed work left behind. */
  function Noted(s: State, i: nat): State
    requires Unfinished(s, i)
  {
    var id := s.restores[i].episode;
    SetEpisode(s, id, s.episodes[id].(generation := Generation(s, s.restores[i].window)))
  }

  function Fail(s: State, i: nat, failure: Failure): State
    requires Unfinished(s, i)
  {
    if Owns(s, i) then Release(Handled(Noted(s, i), s.restores[i].episode, failure), i) else Release(s, i)
  }

  function Step(s: State, e: Event): State {
    match e
    case Native(port, reason, generation) => OnEvent(s, port, reason, generation)
    case TimerFires(port, timer) => FireTimer(s, port, timer)
    case RestoreSucceeds(i, session, now) => if Unfinished(s, i) then Succeed(s, i, session, now) else s
    case RestoreFails(i, failure) => if Unfinished(s, i) then Fail(s, i, failure) else s
    case UpdateWindows(windows) => Sync(s.(windows := windows))
    case ChangeSelection(selected) => s.(selected := selected, owner := s.owner + 1)
    case ChangeGeneration(reservation, native) => s.(native := s.native[reservation := native])
    case ExternalClaim(session) =>
      if session in s.claims then s else s.(claims := s.claims + {session}, external := s.external + {session})
    case ExternalRelease(session) =>
      if session in s.external then s.(claims := s.claims - {session}, external := s.external - {session}) else s
  }

  function Run(s: State, events: seq<Event>): State
    decreases events
  {
    if events == [] then s else Run(Step(s, events[0]), events[1..])
  }

  // ------------------------------------------------ the controller, in place

  class StreamRecoveryController {
    var windows: seq<Window>
    var native: map<nat, nat>
    var selected: bool
    var owner: nat
    /** Every episode ever started; the table maps a port to its episode. */
    var episodes: seq<Episode>
    var table: map<nat, nat>
    var pendingRestores: map<nat, Timer>
    var recoveryInFlight: set<nat>
    ghost var external: set<nat>
    /** The calls of `restore`. */
    var restores: seq<Restore>
    var nextTimer: nat
    var subscribed: bool

    ghost function Model(): State
      reads this
    {
      State(windows, native, selected, owner, episodes, table, pendingRestores, recoveryInFlight, external, restores,
            nextTimer, subscribed)
    }

    constructor ()
      ensures Model() == Initial
    {
      windows, native, selected, owner, episodes, table := [], map[], true, 0, [], map[];
      pendingRestores, recoveryInFlight, external, restores, nextTimer, subscribed := map[], {}, {}, [], 0, false;
    }

    function GenerationOf(w: Window): Option<nat>
      reads this
    {
      if w.reservation.Some? && w.reservation.value in native then Some(native[w.reservation.value]) else None
    }

    predicate StillCurrent(w: Window, episodeOwner: nat)
      reads this
    {
      selected && episodeOwner == owner && w in windows
    }

    method ClearPending(port: nat)
      modifies this`pendingRestores
      ensures pendingRestores == old(pendingRestores) - {port}
    {
      pendingRestores := pendingRestores - {port};
    }

    predicate EpisodeIsStale(port: nat)
      reads this
      requires port in table
    {
      table[port] < |episodes| &&
      var e := episodes[table[port]];
      || !StillCurrent(e.active, e.owner)
      || (e.generation != GenerationOf(e.active) && e.active.session !in recoveryInFlight)
    }

    /** The ports whose episodes no longer fit their windows; the source removes them
        while it walks the table. */
    method StaleEpisodes() returns (stale: set<nat>)
      ensures stale == StalePorts(Model())
    {
      stale := {};
      var todo := table.Keys;
      while todo != {}
        invariant todo <= table.Keys
        invariant forall port :: port in stale <==> port in table.Keys - todo && StaleAt(Model(), port)
        decreases todo
      {
        var port :| port in todo;
        todo := todo - {port};
        if EpisodeIsStale(port) {
          stale := stale + {port};
        }
      }
    }

    method SyncSubscription()
      modifies this`table, this`pendingRestores, this`subscribed
      ensures Model() == Sync(old(Model()))
    {
      var stale := StaleEpisodes();
      table, pendingRestores := table - stale, pendingRestores - stale;
      subscribed := windows != [];
    }

    method RetireEpisode(id: nat, report: bool)
      requires id < |episodes|
      modifies this
      ensures Model() == Retire(old(Model()), id, report)
    {
      episodes := episodes[id := episodes[id].(retired := true)];
      ClearPending(episodes[id].active.port);
      if report {
        SyncSubscription();
      }
    }

    method BeginRestoreOf(id: nat, port: nat)
      requires id < |episodes|
      modifies this
      ensures Model() == BeginRestore(old(Model()), id, port)
    {
      var e := episodes[id];
      if e.retired || !StillCurrent(e.active, e.owner) || e.generation != GenerationOf(e.active) {
        return;
      }
      if e.attempts >= MAX_RESTORE_ATTEMPTS {
        RetireEpisode(id, true);
        return;
      }
      var matching := OnPort(windows, port);
      if |matching| != 1 || matching[0].session in recoveryInFlight || matching[0] != e.active {
        return;
      }
      recoveryInFlight := recoveryInFlight + {e.active.session};
      episodes := episodes[id := e.(attempts := e.attempts + 1)];
      restores := restores + [Restore(e.active, id, false)];
    }

    method ScheduleRestoreOf(id: nat, failedRetry: bool)
      requires id < |episodes|
      modifies this`pendingRestores, this`nextTimer
      ensures Model() == ScheduleRestore(old(Model()), id, failedRetry)
    {
      var e := episodes[id];
      if e.retired || !StillCurrent(e.active, e.owner) || e.active.port in pendingRestores {
        return;
      }
      var timer := Timer(nextTimer, id, failedRetry, RestoreBackoffDelayMs(e.attempts), e.active, GenerationOf(e.active));
      nextTimer := nextTimer + 1;
      pendingRestores := pendingRestores[e.active.port := timer];
    }

    method RefreshEpisode(port: nat)
      modifies this`table, this`pendingRestores
      ensures Model() == Refreshed(old(Model()), port)
    {
      if port in table && table[port] < |episodes| {
        var e := episodes[table[port]];
        if !StillCurrent(e.active, e.owner) || e.generation != GenerationOf(e.active) {
          ClearPending(port);
          table := table - {port};
        }
      }
    }

    method RecoverEpisode(id: nat, port: nat)
      requires id < |episodes|
      modifies this
      ensures Model() == Recover(old(Model()), id, port)
    {
      if episodes[id].retired {
        return;
      }
      if port in pendingRestores {
        if !pendingRestores[port].failedRetry {
          return;
        }
        ClearPending(port);
        BeginRestoreOf(id, port);
        return;
      }
      var delay := RestoreBackoffDelayMs(episodes[id].attempts);
      if delay == 0 {
        BeginRestoreOf(id, port);
      } else {
        ScheduleRestoreOf(id, false);
      }
    }

    /** The listener of native terminations. */
    method OnNativeEvent(port: nat, reason: nat, generation: Option<nat>)
      modifies this
      ensures Model() == OnEvent(old(Model()), port, reason, generation)
    {
      var matching := OnPort(windows, port);
      if port < 1 || port > 65535 || |matching| != 1 {
        return;
      }
      var active := matching[0];
      if generation.Some? && GenerationOf(active).Some? && generation != GenerationOf(active) {
        return;
      }
      if reason == 0 {
        windows := OffPort(windows, port);
        SyncSubscription();
        return;
      }
      if reason !in {1, 4, 5} || active.session in recoveryInFlight {
        return;
      }
      RecoverWindow(port, active);
    }

    method RecoverWindow(port: nat, active: Window)
      modifies this
      ensures var r := StartEpisode(Refreshed(old(Model()), port), port, active);
              Model() == if port in r.table && r.table[port] < |r.episodes| then Recover(r, r.table[port], port) else r
    {
      RefreshEpisode(port);
      StartEpisodeOn(port, active);
      if port in table && table[port] < |episodes| {
        RecoverEpisode(table[port], port);
      }
    }

    method StartEpisodeOn(port: nat, active: Window)
      modifies this`episodes, this`table
      ensures Model() == StartEpisode(old(Model()), port, active)
    {
      if port in table || !selected {
        return;
      }
      table := table[port := |episodes|];
      episodes := episodes + [Episode(active, owner, 0, GenerationOf(active), false)];
    }

    method TimerCallback(port: nat, timer: nat)
      modifies this
      ensures Model() == FireTimer(old(Model()), port, timer)
    {
      if port !in pendingRestores || pendingRestores[port].id != timer || pendingRestores[port].episode >= |episodes| {
        return;
      }
      var t := pendingRestores[port];
      var e := episodes[t.episode];
      ClearPending(port);
      if StillCurrent(t.window, e.owner) && t.window == e.active && GenerationOf(t.window) == t.generation {
        BeginRestoreOf(t.episode, port);
      }
    }

    method ReleaseClaim(i: nat)
      requires i < |restores|
      modifies this`recoveryInFlight, this`restores
      ensures Model() == Release(old(Model()), i)
    {
      recoveryInFlight := recoveryInFlight - {restores[i].window.session};
      restores := restores[i := restores[i].(done := true)];
    }

    /** The rest of `restore` once the restart was accepted. */
    method RestoreResolves(i: nat, session: nat, now: nat)
      requires Unfinished(Model(), i)
      modifies this
      ensures Model() == Succeed(old(Model()), i, session, now)
    {
      var was, id := restores[i].window, restores[i].episode;
      if StillCurrent(was, episodes[id].owner) {
        var restored := Window(session, was.port, now, was.reservation);
        episodes := episodes[id := episodes[id].(active := restored, generation := GenerationOf(restored))];
        windows := Replaced(windows, was, restored);
        SyncSubscription();
      }
      ReleaseClaim(i);
    }

    /** The rest of `restore` once it failed. */
    method RestoreRejects(i: nat, failure: Failure)
      requires Unfinished(Model(), i)
      modifies this
      ensures Model() == Fail(old(Model()), i, failure)
    {
      var was, id := restores[i].window, restores[i].episode;
      if StillCurrent(was, episodes[id].owner) {
        episodes := episodes[id := episodes[id].(generation := GenerationOf(was))];
        HandleFailure(id, failure);
      }
      ReleaseClaim(i);
    }

    method HandleFailure(id: nat, failure: Failure)
      requires id < |episodes|
      modifies this
      ensures Model() == Handled(old(Model()), id, failure)
    {
      if failure == Cancelled {
        RetireEpisode(id, false);
        return;
      }
      SyncSubscription();
      if failure == Fatal {
        RetireEpisode(id, false);
        return;
      }
      if episodes[id].attempts >= MAX_RESTORE_ATTEMPTS {
        RetireEpisode(id, true);
      } else {
        ScheduleRestoreOf(id, true);
      }
    }
  }
}

/** What every run of the recovery controller keeps. */
module RecoveryHistory {
  import opened Wrappers
  import opened StreamRecovery

  predicate Indexed(s: State) {
    && (forall port :: port in s.table ==>
          s.table[port] < |s.episodes| && s.episodes[s.table[port]].active.port == port)
    && (forall i :: 0 <= i < |s.restores| ==> s.restores[i].episode < |s.episodes|)
  }

  /** The timer of a port belongs to an episode of that port that may still restore, and
      waits exactly that episode's backoff. */
  predicate TimersFit(s: State) {
    forall port :: port in s.pending ==>
      var t := s.pending[port];
      && t.episode < |s.episodes| && t.id < s.nextTimer
      && s.episodes[t.episode].active.port == port
      && !s.episodes[t.episode].retired
      && s.episodes[t.episode].attempts > 0
      && t.delay == RestoreBackoffDelayMs(s.episodes[t.episode].attempts)
  }

  /** An unfinished restore works on its episode's window, holds the claim on its
      session, and its episode is not retired. */
  predicate RestoresFit(s: State) {
    && (forall i :: 0 <= i < |s.restores| && !s.restores[i].done ==>
          && s.restores[i].episode < |s.episodes|
          && s.episodes[s.restores[i].episode].active == s.restores[i].window
          && !s.episodes[s.restores[i].episode].retired
          && s.episodes[s.restores[i].episode].attempts > 0
          && s.restores[i].window.session in s.claims
          && s.restores[i].window.session !in s.external)
    && s.external <= s.claims
  }

  /** At most one unfinished restore per session. */
  predicate OnePerSession(s: State) {
    forall i, j :: 0 <= i < j < |s.restores| && !s.restores[i].done && !s.restores[j].done ==>
      s.restores[i].window.session != s.restores[j].window.session
  }

  predicate Busy(s: State, id: nat) {
    exists i :: 0 <= i < |s.restores| && !s.restores[i].done && s.restores[i].episode == id
  }

  /** A pending timer and an unfinished restore never belong to one episode. */
  predicate Exclusive(s: State) {
    forall port :: port in s.pending ==> !Busy(s, s.pending[port].episode)
  }

  predicate Recovering(s: State) {
    Indexed(s) && TimersFit(s) && RestoresFit(s) && OnePerSession(s) && Exclusive(s)
  }

  // ------------------------------------------------------ the small changes

  /** Dropping table entries or timers, and any change to windows, selection or native
      generations, keeps all of it. */
  predicate Fewer(s: State, t: State) {
    && t.episodes == s.episodes && t.restores == s.restores && t.claims == s.claims && t.external == s.external
    && t.nextTimer == s.nextTimer
    && (forall port :: port in t.table ==> port in s.table && t.table[port] == s.table[port])
    && (forall port :: port in t.pending ==> port in s.pending && t.pending[port] == s.pending[port])
  }

  lemma FewerKeepsRecovering(s: State, t: State)
    requires Recovering(s) && Fewer(s, t)
    ensures Recovering(t)
  {
    forall port | port in t.pending
      ensures !Busy(t, t.pending[port].episode)
    {
      assert !Busy(s, s.pending[port].episode);
    }
  }

  lemma SyncIsFewer(s: State)
    ensures Fewer(s, Sync(s))
  {
  }

  predicate NoTimer(s: State, id: nat) {
    forall port :: port in s.pending ==> s.pending[port].episode != id
  }

  /** `t` is `s` with an idle episode rewritten on its own port, and fewer entries. */
  predicate Rewritten(s: State, t: State, id: nat) {
    && id < |s.episodes| && |t.episodes| == |s.episodes|
    && t.episodes[id].active.port == s.episodes[id].active.port
    && Fewer(s, t.(episodes := s.episodes))
    && forall k :: 0 <= k < |s.episodes| && k != id ==> t.episodes[k] == s.episodes[k]
  }

  lemma RewriteKeepsRecovering(s: State, t: State, id: nat)
    requires Recovering(s) && Rewritten(s, t, id) && !Busy(s, id) && NoTimer(s, id)
    ensures Recovering(t) && !Busy(t, id) && NoTimer(t, id)
  {
    forall port | port in t.pending
      ensures !Busy(t, t.pending[port].episode)
    {
      assert !Busy(s, s.pending[port].episode);
    }
    forall i | 0 <= i < |s.restores| && !s.restores[i].done
      ensures s.restores[i].episode != id
    {
    }
  }

  lemma CallKeepsRecovering(s: State, id: nat)
    requires Recovering(s) && id < |s.episodes| && !Busy(s, id) && NoTimer(s, id)
    requires !s.episodes[id].retired && s.episodes[id].active.session !in s.claims
    ensures Recovering(CallRestore(s, id))
  {
    var t := CallRestore(s, id);
    var e := s.episodes[id];
    var r := SetEpisode(s, id, e.(attempts := e.attempts + 1));
    RewriteKeepsRecovering(s, r, id);
    CallAddsRecovering(r, id);
  }

  /** Adding the restore of an idle episode whose session is unclaimed. */
  lemma CallAddsRecovering(s: State, id: nat)
    requires Recovering(s) && id < |s.episodes| && !Busy(s, id) && NoTimer(s, id)
    requires !s.episodes[id].retired && s.episodes[id].attempts > 0 && s.episodes[id].active.session !in s.claims
    ensures var w := s.episodes[id].active;
            Recovering(s.(claims := s.claims + {w.session}, restores := s.restores + [Restore(w, id, false)]))
  {
    var w := s.episodes[id].active;
    var t := s.(claims := s.claims + {w.session}, restores := s.restores + [Restore(w, id, false)]);
    forall port | port in t.pending
      ensures !Busy(t, t.pending[port].episode)
    {
      assert !Busy(s, s.pending[port].episode);
    }
  }

  lemma BeginKeepsRecovering(s: State, id: nat, port: nat)
    requires Recovering(s) && id < |s.episodes| && !Busy(s, id) && NoTimer(s, id)
    ensures Recovering(BeginRestore(s, id, port))
  {
    var t, e := BeginRestore(s, id, port), s.episodes[id];
    if t == CallRestore(s, id) && !e.retired && Recoverable(s, port) == Some(e.active) {
      CallKeepsRecovering(s, id);
    } else if t != s {
      assert t == Retire(s, id, true);
      RewriteKeepsRecovering(s, t, id);
    }
  }

  lemma ScheduleKeepsRecovering(s: State, id: nat, failedRetry: bool)
    requires Recovering(s) && id < |s.episodes| && !Busy(s, id) && s.episodes[id].attempts > 0
    ensures Recovering(ScheduleRestore(s, id, failedRetry))
  {
    var t := ScheduleRestore(s, id, failedRetry);
    forall port | port in t.pending
      ensures !Busy(t, t.pending[port].episode)
    {
      if port in s.pending && t.pending[port] == s.pending[port] {
        assert !Busy(s, s.pending[port].episode);
      }
    }
  }

  // -------------------------------------------------------------- the steps

  lemma {:induction false} OnlyWindowOfPort(windows: seq<Window>, port: nat, w: Window)
    requires w in windows && w.port == port
    ensures w in OnPort(windows, port)
    decreases windows
  {
    if windows[0] != w {
      OnlyWindowOfPort(windows[1..], port, w);
    }
  }

  lemma TimerKeepsRecovering(s: State, port: nat, timer: nat)
    requires Recovering(s)
    ensures Recovering(FireTimer(s, port, timer))
  {
    if port in s.pending && s.pending[port].id == timer {
      var id, r := s.pending[port].episode, s.(pending := s.pending - {port});
      FewerKeepsRecovering(s, r);
      assert !Busy(r, id) by {
        assert !Busy(s, id);
      }
      BeginKeepsRecovering(r, id, port);
    }
  }

  lemma RecoverKeepsRecovering(s: State, id: nat, port: nat)
    requires Recovering(s) && id < |s.episodes| && s.episodes[id].active.port == port && !Busy(s, id)
    ensures Recovering(Recover(s, id, port))
  {
    if port in s.pending {
      var r := s.(pending := s.pending - {port});
      FewerKeepsRecovering(s, r);
      assert !Busy(r, id) by {
        assert r.restores == s.restores;
      }
      BeginKeepsRecovering(r, id, port);
    } else if s.episodes[id].attempts == 0 {
      BeginKeepsRecovering(s, id, port);
    } else {
      BackoffIsPositive(s.episodes[id].attempts);
      ScheduleKeepsRecovering(s, id, false);
    }
  }

  lemma {:induction false} PowIsPositive(n: nat)
    ensures Pow2(n) >= 1
  {
    if n > 0 {
      PowIsPositive(n - 1);
    }
  }

  lemma BackoffIsPositive(attempts: nat)
    requires attempts > 0
    ensures RestoreBackoffDelayMs(attempts) > 0
  {
    PowIsPositive(attempts - 1);
  }

  lemma StartKeepsRecovering(s: State, port: nat, w: Window)
    requires Recovering(s) && w.port == port
    ensures Recovering(StartEpisode(s, port, w))
  {
    var t := StartEpisode(s, port, w);
    forall port | port in t.pending
      ensures !Busy(t, t.pending[port].episode)
    {
      assert !Busy(s, s.pending[port].episode);
    }
  }

  lemma RefreshKeepsRecovering(s: State, port: nat)
    requires Recovering(s)
    ensures Recovering(Refreshed(s, port)) && Fewer(s, Refreshed(s, port))
  {
    FewerKeepsRecovering(s, Refreshed(s, port));
  }

  /** The episode an event reaches has no restore in flight. */
  lemma EventEpisodeIsIdle(s: State, port: nat)
    requires Recovering(s) && Recoverable(s, port).Some?
    ensures var r := StartEpisode(Refreshed(s, port), port, Recoverable(s, port).value);
            port in r.table ==>
              && r.table[port] < |r.episodes| && r.episodes[r.table[port]].active.port == port
              && !Busy(r, r.table[port])
  {
    var w := Recoverable(s, port).value;
    var f := Refreshed(s, port);
    RefreshKeepsRecovering(s, port);
    OnPortIsOnPort(s.windows, port);
    if port in f.table {
      var e := s.episodes[s.table[port]];
      OnlyWindowOfPort(s.windows, port, e.active);
      assert e.active == w;
    }
  }

  lemma {:induction false} OnPortIsOnPort(windows: seq<Window>, port: nat)
    ensures forall k :: 0 <= k < |OnPort(windows, port)| ==> OnPort(windows, port)[k].port == port
    decreases windows
  {
    if windows != [] {
      OnPortIsOnPort(windows[1..], port);
    }
  }

  lemma EventKeepsRecovering(s: State, port: nat, reason: nat, generation: Option<nat>)
    requires Recovering(s)
    ensures Recovering(OnEvent(s, port, reason, generation))
  {
    if Recoverable(s, port).Some? {
      var w := Recoverable(s, port).value;
      OnPortIsOnPort(s.windows, port);
      var r := StartEpisode(Refreshed(s, port), port, w);
      RefreshKeepsRecovering(s, port);
      StartKeepsRecovering(Refreshed(s, port), port, w);
      EventEpisodeIsIdle(s, port);
      if port in r.table {
        RecoverKeepsRecovering(r, r.table[port], port);
      }
    }
    var closed := s.(windows := OffPort(s.windows, port));
    SyncIsFewer(closed);
    FewerKeepsRecovering(s, Sync(closed));
  }

  /** Once a restore is over its episode is idle. */
  lemma ReleaseKeepsRecovering(s: State, i: nat)
    requires Recovering(s) && Unfinished(s, i)
    ensures Recovering(Release(s, i))
    ensures !Busy(Release(s, i), s.restores[i].episode) && NoTimer(Release(s, i), s.restores[i].episode)
  {
    var t, id := Release(s, i), s.restores[i].episode;
    assert Busy(s, id);
    forall port | port in t.pending
      ensures !Busy(t, t.pending[port].episode) && t.pending[port].episode != id
    {
      assert !Busy(s, s.pending[port].episode);
    }
  }

  lemma SuccessKeepsRecovering(s: State, i: nat, session: nat, now: nat)
    requires Recovering(s) && Unfinished(s, i)
    ensures Recovering(Succeed(s, i, session, now))
  {
    ReleaseKeepsRecovering(s, i);
    if Owns(s, i) {
      RewriteKeepsRecovering(Release(s, i), Succeed(s, i, session, now), s.restores[i].episode);
    }
  }

  lemma FinalFailure(s: State, i: nat, failure: Failure)
    requires Unfinished(s, i) && Owns(s, i)
    requires failure.Retryable? ==> s.episodes[s.restores[i].episode].attempts >= MAX_RESTORE_ATTEMPTS
    ensures Rewritten(Release(s, i), Fail(s, i, failure), s.restores[i].episode)
  {
    var id, r := s.restores[i].episode, Noted(s, i);
    match failure
    case Cancelled => assert Fail(s, i, failure) == Release(Retire(r, id, false), i);
    case Fatal => assert Fail(s, i, failure) == Release(Retire(Sync(r), id, false), i);
    case Retryable => assert Fail(s, i, failure) == Release(Retire(Sync(r), id, true), i);
  }

  lemma RetriedFailure(s: State, i: nat)
    requires Unfinished(s, i) && Owns(s, i)
    requires s.episodes[s.restores[i].episode].attempts < MAX_RESTORE_ATTEMPTS
    ensures Rewritten(Release(s, i), Release(Sync(Noted(s, i)), i), s.restores[i].episode)
    ensures Fail(s, i, Retryable) == ScheduleRestore(Release(Sync(Noted(s, i)), i), s.restores[i].episode, true)
  {
  }

  lemma FailureKeepsRecovering(s: State, i: nat, failure: Failure)
    requires Recovering(s) && Unfinished(s, i)
    ensures Recovering(Fail(s, i, failure))
  {
    ReleaseKeepsRecovering(s, i);
    if Owns(s, i) {
      var id := s.restores[i].episode;
      if failure.Retryable? && s.episodes[id].attempts < MAX_RESTORE_ATTEMPTS {
        var ready := Release(Sync(Noted(s, i)), i);
        RetriedFailure(s, i);
        RewriteKeepsRecovering(Release(s, i), ready, id);
        ScheduleKeepsRecovering(ready, id, true);
      } else {
        FinalFailure(s, i, failure);
        RewriteKeepsRecovering(Release(s, i), Fail(s, i, failure), id);
      }
    }
  }

  lemma ClaimKeepsRecovering(s: State, session: nat)
    requires Recovering(s)
    ensures Recovering(Step(s, ExternalClaim(session)))
  {
    var t := Step(s, ExternalClaim(session));
    assert t.(claims := s.claims, external := s.external) == s;
    assert Indexed(t) && TimersFit(t);
    assert RestoresFit(t) && OnePerSession(t);
    assert Exclusive(t) by {
      forall port | port in t.pending
        ensures !Busy(t, t.pending[port].episode)
      {
        assert !Busy(s, s.pending[port].episode);
      }
    }
  }

  lemma UnclaimKeepsRecovering(s: State, session: nat)
    requires Recovering(s)
    ensures Recovering(Step(s, ExternalRelease(session)))
  {
    var t := Step(s, ExternalRelease(session));
    assert Exclusive(t) by {
      forall port | port in t.pending
        ensures !Busy(t, t.pending[port].episode)
      {
        assert !Busy(s, s.pending[port].episode);
      }
    }
  }

  lemma StepKeepsRecovering(s: State, e: Event)
    requires Recovering(s)
    ensures Recovering(Step(s, e))
  {
    match e
    case Native(port, reason, generation) => EventKeepsRecovering(s, port, reason, generation);
    case TimerFires(port, timer) => TimerKeepsRecovering(s, port, timer);
    case RestoreSucceeds(i, session, now) => if Unfinished(s, i) { SuccessKeepsRecovering(s, i, session, now); }
    case RestoreFails(i, failure) => if Unfinished(s, i) { FailureKeepsRecovering(s, i, failure); }
    case ExternalClaim(session) => ClaimKeepsRecovering(s, session);
    case ExternalRelease(session) => UnclaimKeepsRecovering(s, session);
    case UpdateWindows(windows) => FewerKeepsRecovering(s, Step(s, e));
    case _ => FewerKeepsRecovering(s, Step(s, e));
  }

  /** In every interleaving of native events, timers, restores that end late, store
      updates and outside claims: each session has at most one unfinished restore, each
      port at most one timer, which waits its episode's backoff, and no episode has a
      timer and an unfinished restore at once; retired episodes have neither. */
  lemma {:induction false} RunKeepsRecovering(s: State, events: seq<Event>)
    requires Recovering(s)
    ensures Recovering(Run(s, events))
    decreases events
  {
    if events != [] {
      StepKeepsRecovering(s, events[0]);
      RunKeepsRecovering(Step(s, events[0]), events[1..]);
    }
  }

  // ------------------------------------------------------ counting the calls

  /** Which episodes called `restore`, in order. */
  function Callers(s: State): seq<nat> {
    seq(|s.restores|, i requires 0 <= i < |s.restores| => s.restores[i].episode)
  }

  function Count(callers: seq<nat>, id: nat): nat {
    if callers == [] then 0
    else Count(callers[..|callers| - 1], id) + (if callers[|callers| - 1] == id then 1 else 0)
  }

  predicate Counted(s: State) {
    && (forall i :: 0 <= i < |s.restores| ==> s.restores[i].episode < |s.episodes|)
    && (forall id :: 0 <= id < |s.episodes| ==>
          Count(Callers(s), id) == s.episodes[id].attempts <= MAX_RESTORE_ATTEMPTS)
  }

  lemma {:induction false} CountOfStranger(callers: seq<nat>, id: nat)
    requires forall i :: 0 <= i < |callers| ==> callers[i] < id
    ensures Count(callers, id) == 0
  {
    if callers != [] {
      CountOfStranger(callers[..|callers| - 1], id);
    }
  }

  /** No `restore` is called; new episodes start with a full budget. */
  predicate Silent(s: State, t: State) {
    && Callers(t) == Callers(s) && |s.episodes| <= |t.episodes| && s.owner <= t.owner
    && (forall id :: 0 <= id < |s.episodes| ==>
          && t.episodes[id].attempts == s.episodes[id].attempts
          && t.episodes[id].owner == s.episodes[id].owner
          && (s.episodes[id].retired ==> t.episodes[id].retired))
    && (forall id :: |s.episodes| <= id < |t.episodes| ==> t.episodes[id].attempts == 0)
  }

  lemma SilentKeepsCounted(s: State, t: State)
    requires Counted(s) && Silent(s, t)
    ensures Counted(t)
  {
    forall i | 0 <= i < |t.restores|
      ensures t.restores[i].episode < |t.episodes|
    {
      assert Callers(t)[i] == Callers(s)[i];
    }
    forall id | |s.episodes| <= id < |t.episodes|
      ensures Count(Callers(t), id) == 0
    {
      CountOfStranger(Callers(t), id);
    }
  }

  lemma SilentCompose(s: State, t: State, u: State)
    requires Silent(s, t) && Silent(t, u) && (|t.episodes| == |s.episodes| || |u.episodes| == |t.episodes|)
    ensures Silent(s, u)
  {
  }

  lemma FewerIsSilent(s: State, t: State)
    requires Fewer(s, t) && s.owner <= t.owner
    ensures Silent(s, t)
  {
    assert Callers(t) == Callers(s);
  }

  predicate Calls(s: State, t: State, id: nat) {
    && id < |s.episodes| && !s.episodes[id].retired && s.episodes[id].attempts < MAX_RESTORE_ATTEMPTS
    && |t.episodes| == |s.episodes| && s.owner <= t.owner
    && Callers(t) == Callers(s) + [id]
    && t.episodes[id].attempts == s.episodes[id].attempts + 1 && t.episodes[id].owner == s.episodes[id].owner
    && (forall k :: 0 <= k < |s.episodes| && k != id ==> t.episodes[k] == s.episodes[k])
  }

  lemma CallKeepsCounted(s: State, t: State, id: nat)
    requires Counted(s) && Calls(s, t, id)
    ensures Counted(t)
  {
    var callers := Callers(s) + [id];
    assert callers[..|callers| - 1] == Callers(s);
    forall i | 0 <= i < |t.restores|
      ensures t.restores[i].episode < |t.episodes|
    {
      assert Callers(t)[i] == callers[i];
    }
  }

  lemma BeginCallsAtMostOnce(s: State, id: nat, port: nat)
    requires id < |s.episodes|
    ensures var t := BeginRestore(s, id, port); Silent(s, t) || Calls(s, t, id)
  {
    var t, e := BeginRestore(s, id, port), s.episodes[id];
    if t == CallRestore(s, id) {
      assert Callers(CallRestore(s, id)) == Callers(s) + [id];
    }
    assert Callers(Retire(s, id, true)) == Callers(s);
  }

  /** From a counted state: still counted, retired episodes did nothing, and every
      episode keeps its selection. */
  predicate Sparing(s: State, t: State) {
    && Counted(t) && |s.episodes| <= |t.episodes| && s.owner <= t.owner
    && (forall id :: 0 <= id < |s.episodes| ==>
          && t.episodes[id].owner == s.episodes[id].owner
          && (s.episodes[id].retired ==>
                t.episodes[id].retired && t.episodes[id].attempts == s.episodes[id].attempts))
  }

  lemma BeginIsSparing(s: State, id: nat, port: nat)
    requires Counted(s) && id < |s.episodes|
    ensures Sparing(s, BeginRestore(s, id, port))
  {
    var t := BeginRestore(s, id, port);
    BeginCallsAtMostOnce(s, id, port);
    if Silent(s, t) {
      SilentKeepsCounted(s, t);
    } else {
      CallKeepsCounted(s, t, id);
    }
  }

  lemma SilentIsSparing(s: State, t: State)
    requires Counted(s) && Silent(s, t)
    ensures Sparing(s, t)
  {
    SilentKeepsCounted(s, t);
  }

  lemma RecoverIsSparing(s: State, id: nat, port: nat)
    requires Counted(s) && id < |s.episodes|
    ensures Sparing(s, Recover(s, id, port))
  {
    if port in s.pending {
      var r := s.(pending := s.pending - {port});
      FewerIsSilent(s, r);
      SilentIsSparing(s, r);
      BeginIsSparing(r, id, port);
    } else {
      BeginIsSparing(s, id, port);
      SilentIsSparing(s, ScheduleRestore(s, id, false)) by {
        assert Callers(ScheduleRestore(s, id, false)) == Callers(s);
      }
    }
  }

  lemma StartIsSilent(s: State, port: nat, w: Window)
    ensures Silent(s, StartEpisode(s, port, w))
  {
    assert Callers(StartEpisode(s, port, w)) == Callers(s);
  }

  lemma CloseIsSparing(s: State, port: nat)
    requires Counted(s)
    ensures Sparing(s, Sync(s.(windows := OffPort(s.windows, port))))
  {
    var closed := s.(windows := OffPort(s.windows, port));
    SyncIsFewer(closed);
    FewerIsSilent(s, Sync(closed));
    SilentIsSparing(s, Sync(closed));
  }

  lemma EpisodeIsSparing(s: State, port: nat, w: Window)
    requires Counted(s)
    ensures Sparing(s, StartEpisode(Refreshed(s, port), port, w))
  {
    var f := Refreshed(s, port);
    FewerIsSilent(s, f);
    SilentIsSparing(s, f);
    StartIsSilent(f, port, w);
    SilentIsSparing(f, StartEpisode(f, port, w));
  }

  lemma EventIsSparing(s: State, port: nat, reason: nat, generation: Option<nat>)
    requires Counted(s)
    ensures Sparing(s, OnEvent(s, port, reason, generation))
  {
    var t, matching := OnEvent(s, port, reason, generation), OnPort(s.windows, port);
    if t == s || |matching| != 1 {
      FewerIsSilent(s, s);
      SilentIsSparing(s, s);
    } else if reason == 0 {
      CloseIsSparing(s, port);
    } else {
      var r := StartEpisode(Refreshed(s, port), port, matching[0]);
      EpisodeIsSparing(s, port, matching[0]);
      if port in r.table && r.table[port] < |r.episodes| {
        RecoverIsSparing(r, r.table[port], port);
      }
    }
  }

  lemma TimerIsSparing(s: State, port: nat, timer: nat)
    requires Counted(s)
    ensures Sparing(s, FireTimer(s, port, timer))
  {
    if port in s.pending && s.pending[port].episode < |s.episodes| {
      var r := s.(pending := s.pending - {port});
      FewerIsSilent(s, r);
      SilentIsSparing(s, r);
      BeginIsSparing(r, s.pending[port].episode, port);
    }
  }

  lemma SuccessIsSilent(s: State, i: nat, session: nat, now: nat)
    requires Unfinished(s, i)
    ensures Silent(s, Succeed(s, i, session, now))
  {
    if Owns(s, i) {
      PublishIsSilent(s, i, session, now);
      ReleaseIsSilent(Publish(s, i, session, now), i);
    } else {
      ReleaseIsSilent(s, i);
    }
  }

  lemma PublishIsSilent(s: State, i: nat, session: nat, now: nat)
    requires Unfinished(s, i)
    ensures Silent(s, Publish(s, i, session, now))
  {
    assert Callers(Publish(s, i, session, now)) == Callers(s);
  }

  lemma ReleaseIsSilent(s: State, i: nat)
    requires i < |s.restores|
    ensures Silent(s, Release(s, i))
  {
    assert Callers(Release(s, i)) == Callers(s);
  }

  lemma RetireIsSilent(s: State, id: nat, report: bool)
    requires id < |s.episodes|
    ensures Silent(s, Retire(s, id, report))
  {
    assert Callers(Retire(s, id, report)) == Callers(s);
  }

  lemma HandledIsSilent(s: State, id: nat, failure: Failure)
    requires id < |s.episodes|
    ensures Silent(s, Handled(s, id, failure))
  {
    FewerIsSilent(s, Sync(s));
    RetireIsSilent(s, id, false);
    RetireIsSilent(Sync(s), id, failure.Retryable?);
    assert Silent(Sync(s), ScheduleRestore(Sync(s), id, true)) by {
      assert Callers(ScheduleRestore(Sync(s), id, true)) == Callers(s);
    }
  }

  lemma FailureIsSilent(s: State, i: nat, failure: Failure)
    requires Unfinished(s, i)
    ensures Silent(s, Fail(s, i, failure))
  {
    if Owns(s, i) {
      var noted, id := Noted(s, i), s.restores[i].episode;
      assert Silent(s, noted) by {
        assert Callers(noted) == Callers(s);
      }
      HandledIsSilent(noted, id, failure);
      assert |Handled(noted, id, failure).restores| == |s.restores|;
      ReleaseIsSilent(Handled(noted, id, failure), i);
      SilentCompose(s, noted, Handled(noted, id, failure));
    } else {
      ReleaseIsSilent(s, i);
    }
  }

  lemma StepIsSparing(s: State, e: Event)
    requires Counted(s)
    ensures Sparing(s, Step(s, e))
  {
    match e
    case Native(port, reason, generation) => EventIsSparing(s, port, reason, generation);
    case TimerFires(port, timer) => TimerIsSparing(s, port, timer);
    case RestoreSucceeds(i, session, now) =>
      if Unfinished(s, i) {
        SuccessIsSilent(s, i, session, now);
        SilentIsSparing(s, Step(s, e));
      }
    case RestoreFails(i, failure) =>
      if Unfinished(s, i) {
        FailureIsSilent(s, i, failure);
        SilentIsSparing(s, Step(s, e));
      }
    case _ =>
      assert Callers(Step(s, e)) == Callers(s);
      SilentIsSparing(s, Step(s, e));
  }

  lemma {:induction false} RunIsSparing(s: State, events: seq<Event>)
    requires Counted(s)
    ensures Sparing(s, Run(s, events))
    decreases events
  {
    if events != [] {
      StepIsSparing(s, events[0]);
      RunIsSparing(Step(s, events[0]), events[1..]);
    }
  }

  /** Over any run an episode calls `restore` at most five times. */
  lemma AtMostFiveRestores(events: seq<Event>, id: nat)
    requires id < |Run(Initial, events).episodes|
    ensures Count(Callers(Run(Initial, events)), id) <= MAX_RESTORE_ATTEMPTS
  {
    RunIsSparing(Initial, events);
  }

  /** A retired episode never restores again, whatever happens next. */
  lemma RetiredNeverRestoresAgain(before: seq<Event>, after: seq<Event>, id: nat)
    requires id < |Run(Initial, before).episodes| && Run(Initial, before).episodes[id].retired
    ensures var s, t := Run(Initial, before), Run(Run(Initial, before), after);
            id < |t.episodes| && t.episodes[id].retired && Count(Callers(t), id) == Count(Callers(s), id)
  {
    RunIsSparing(Initial, before);
    RunIsSparing(Run(Initial, before), after);
  }

  // ----------------------------------------------------------- publishing

  /** After the selection of an episode was replaced, none of its restores ever
      publishes: the windows stay as they are, however late the restore succeeds. */
  lemma ReplacedSelectionNeverPublishes(before: seq<Event>, after: seq<Event>, i: nat, session: nat, now: nat)
    requires Unfinished(Run(Run(Initial, before), after), i)
    requires var s, id := Run(Initial, before), Run(Run(Initial, before), after).restores[i].episode;
             id < |s.episodes| && s.episodes[id].owner < s.owner
    ensures var t := Run(Run(Initial, before), after);
            Succeed(t, i, session, now).windows == t.windows && Succeed(t, i, session, now).episodes == t.episodes
  {
    RunIsSparing(Initial, before);
    RunIsSparing(Run(Initial, before), after);
  }

  // ------------------------------------------------ recovering does recover

  /** The window a restore gives back: a new session and start, the same port and lease. */
  predicate IsRestored(now: Window, was: Window, session: nat, time: nat) {
    now.session == session && now.startedAt == time && now.port == was.port && now.reservation == was.reservation
  }

  lemma PublishedKeepsItsPlace(s: State, i: nat, session: nat, time: nat, port: nat)
    requires Unfinished(s, i) && s.selected && s.episodes[s.restores[i].episode].owner == s.owner
    requires s.restores[i].window in s.windows
    requires port in s.table && s.table[port] == s.restores[i].episode
    ensures var t := Publish(s, i, session, time);
            port in t.table && t.table[port] == s.restores[i].episode
  {
    var was, id := s.restores[i].window, s.restores[i].episode;
    var now := Window(session, was.port, time, was.reservation);
    var k :| 0 <= k < |s.windows| && s.windows[k] == was;
    assert Replaced(s.windows, was, now)[k] == now;
  }

  /** A restore whose window is still listed under its own selection is published: exactly
      the entries of that window hold the new one, in their places. Its episode follows
      the new window with its attempts kept, stays on its port, and the claim on the old
      session is free. */
  lemma RestoreIsPublished(s: State, i: nat, session: nat, time: nat)
    requires i < |s.restores| && !s.restores[i].done && s.restores[i].episode < |s.episodes|
    requires s.selected && s.episodes[s.restores[i].episode].owner == s.owner && s.restores[i].window in s.windows
    ensures var was, id, t := s.restores[i].window, s.restores[i].episode, Step(s, RestoreSucceeds(i, session, time));
            && |t.windows| == |s.windows|
            && (forall k :: 0 <= k < |s.windows| && s.windows[k] == was ==> IsRestored(t.windows[k], was, session, time))
            && (forall k :: 0 <= k < |s.windows| && s.windows[k] != was ==> t.windows[k] == s.windows[k])
            && |t.episodes| == |s.episodes| && IsRestored(t.episodes[id].active, was, session, time)
            && t.episodes[id].attempts == s.episodes[id].attempts && t.episodes[id].owner == s.episodes[id].owner
            && t.episodes[id].retired == s.episodes[id].retired
            && (forall port :: port in s.table && s.table[port] == id ==> port in t.table && t.table[port] == id)
            && was.session !in t.claims && t.claims == s.claims - {was.session}
            && |t.restores| == |s.restores| && t.restores[i].done
  {
    var t := Step(s, RestoreSucceeds(i, session, time));
    assert t == Release(Publish(s, i, session, time), i);
    forall port | port in s.table && s.table[port] == s.restores[i].episode
      ensures port in t.table && t.table[port] == s.restores[i].episode
    {
      PublishedKeepsItsPlace(s, i, session, time, port);
    }
  }

  /** Any other restore only gives its claim back. */
  lemma OtherRestoresOnlyRelease(s: State, i: nat, session: nat, time: nat)
    requires i < |s.restores| && !s.restores[i].done && s.restores[i].episode < |s.episodes|
    requires !(s.selected && s.episodes[s.restores[i].episode].owner == s.owner && s.restores[i].window in s.windows)
    ensures var t := Step(s, RestoreSucceeds(i, session, time));
            && t.claims == s.claims - {s.restores[i].window.session} && |t.restores| == |s.restores| && t.restores[i].done
            && t.(claims := s.claims, restores := s.restores) == s
  {
  }

  /** The delays between attempts: at once, 2, 4, 8 and 16 seconds, then half a minute. */
  lemma BackoffInNumbers(n: nat)
    ensures RestoreBackoffDelayMs(n) ==
            if n == 0 then 0 else if n == 1 then 2_000 else if n == 2 then 4_000 else if n == 3 then 8_000
            else if n == 4 then 16_000 else 30_000
  {
    assert Pow2(0) == 1 && Pow2(1) == 2 && Pow2(2) == 4 && Pow2(3) == 8;
    if n >= 5 {
      AtLeastSixteen(n - 1);
    }
  }

  lemma {:induction false} AtLeastSixteen(n: nat)
    requires n >= 4
    ensures Pow2(n) >= 16
  {
    if n == 4 {
      assert Pow2(4) == 2 * Pow2(3) && Pow2(3) == 2 * Pow2(2) && Pow2(2) == 2 * Pow2(1) && Pow2(1) == 2 * Pow2(0);
    } else {
      AtLeastSixteen(n - 1);
    }
  }

  /** The only window on a port. */
  predicate OnlyWindow(s: State, port: nat, w: Window) { OnPort(s.windows, port) == [w] }

  lemma {:induction false} OnPortIsListed(windows: seq<Window>, port: nat)
    ensures forall w :: w in OnPort(windows, port) <==> w in windows && w.port == port
  {
    if windows != [] {
      OnPortIsListed(windows[1..], port);
    }
  }

  /** An episode's restore was called: it is claimed, counted, and suspended. */
  predicate Called(s: State, t: State, id: nat, w: Window, attempts: nat) {
    && t.restores == s.restores + [Restore(w, id, false)] && t.claims == s.claims + {w.session}
    && id < |t.episodes| && t.episodes[id].active == w && t.episodes[id].attempts == attempts
    && t.windows == s.windows
  }

  /** The first termination of a live window under a selection restores it at once. */
  lemma FirstEventRestores(s: State, port: nat, reason: nat, generation: Option<nat>, w: Window)
    requires 1 <= port <= 65535 && reason in {1, 4, 5} && OnlyWindow(s, port, w) && s.selected
    requires w.session !in s.claims && port !in s.table && port !in s.pending
    requires generation == None || generation == Generation(s, w)
    ensures var t, id := Step(s, Native(port, reason, generation)), |s.episodes|;
            && Called(s, t, id, w, 1) && port in t.table && t.table[port] == id
            && t.episodes[id].owner == s.owner && !t.episodes[id].retired
  {
    OnPortIsListed(s.windows, port);
    assert w in OnPort(s.windows, port);
    var r := StartEpisode(s, port, w);
    assert Step(s, Native(port, reason, generation)) == Recover(r, |s.episodes|, port);
  }

  /** A window that its user closed leaves the list, alone. */
  lemma CloseEventRemoves(s: State, port: nat, generation: Option<nat>, w: Window)
    requires 1 <= port <= 65535 && OnlyWindow(s, port, w) && (generation == None || generation == Generation(s, w))
    ensures var t := Step(s, Native(port, 0, generation));
            && |t.windows| == |s.windows| - 1 && (forall o :: o in t.windows <==> o in s.windows && o.port != port)
            && t.restores == s.restores && t.claims == s.claims
  {
    OffPortIsListed(s.windows, port);
  }

  lemma {:induction false} OffPortIsListed(windows: seq<Window>, port: nat)
    ensures forall w :: w in OffPort(windows, port) <==> w in windows && w.port != port
    ensures |OffPort(windows, port)| + |OnPort(windows, port)| == |windows|
  {
    if windows != [] {
      OffPortIsListed(windows[1..], port);
    }
  }

  /** A retryable failure of owned work waits out the backoff of its attempts, and the
      fifth attempt is the last. */
  lemma FailureSchedulesARetry(s: State, i: nat)
    requires Recovering(s) && i < |s.restores| && !s.restores[i].done && s.restores[i].episode < |s.episodes|
    requires var e := s.episodes[s.restores[i].episode];
             && s.selected && e.owner == s.owner && s.restores[i].window in s.windows && !e.retired
             && e.active == s.restores[i].window && e.active.port !in s.pending
    ensures var id, t := s.restores[i].episode, Step(s, RestoreFails(i, Retryable));
            var e := s.episodes[id];
            && s.restores[i].window.session !in t.claims && t.restores[i].done && t.windows == s.windows
            && t.episodes[id].generation == Generation(s, s.restores[i].window)
            && if e.attempts >= 5 then t.episodes[id].retired
               else !t.episodes[id].retired && e.active.port in t.pending
                    && var timer := t.pending[e.active.port];
                       timer.id == s.nextTimer && timer.episode == id && timer.failedRetry
                       && timer.window == e.active && timer.delay == RestoreBackoffDelayMs(e.attempts)
  {
  }

  /** A failure that is final or a cancellation ends the episode. */
  lemma FinalFailureRetires(s: State, i: nat, failure: Failure)
    requires i < |s.restores| && !s.restores[i].done && s.restores[i].episode < |s.episodes| && !failure.Retryable?
    requires var e := s.episodes[s.restores[i].episode];
             s.selected && e.owner == s.owner && s.restores[i].window in s.windows
    ensures var id, t := s.restores[i].episode, Step(s, RestoreFails(i, failure));
            && t.episodes[id].retired && s.episodes[id].active.port !in t.pending
            && s.restores[i].window.session !in t.claims && t.windows == s.windows
  {
  }

  /** A timer that fires for an unchanged window calls the next restore. */
  lemma TimerRestores(s: State, port: nat, w: Window)
    requires port in s.pending && s.pending[port].episode < |s.episodes| && OnlyWindow(s, port, w)
    requires var timer := s.pending[port];
             var e := s.episodes[timer.episode];
             && timer.window == w == e.active && timer.generation == Generation(s, w) == e.generation
             && s.selected && e.owner == s.owner && !e.retired && e.attempts < 5 && w.session !in s.claims
    ensures var id := s.pending[port].episode;
            var t := Step(s, TimerFires(port, s.pending[port].id));
            Called(s, t, id, w, s.episodes[id].attempts + 1) && port !in t.pending
  {
    OnPortIsListed(s.windows, port);
    assert w in OnPort(s.windows, port);
  }

  /** An episode that no longer fits, in fields: the selection or the window is gone, or
      the native generation changed while no restore of its session is claimed. */
  predicate Outlived(s: State, e: Episode) {
    || !s.selected || e.owner != s.owner || e.active !in s.windows
    || (e.active.session !in s.claims
        && e.generation != (if e.active.reservation.Some? && e.active.reservation.value in s.native
                            then Some(s.native[e.active.reservation.value]) else None))
  }

  /** A change of the windows drops exactly the outlived episodes with their timers, and
      subscribes exactly while there are windows. */
  lemma ChangeDropsTheOutlived(s: State, windows: seq<Window>, port: nat)
    ensures var now, t := s.(windows := windows), Step(s, UpdateWindows(windows));
            && t.windows == windows && (t.subscribed <==> windows != [])
            && (port in s.table && s.table[port] < |s.episodes| ==>
                  var outlived := Outlived(now, s.episodes[s.table[port]]);
                  && (port in t.table <==> !outlived)
                  && (port in s.pending ==> (port in t.pending <==> !outlived)))
  {
  }

  /** An event of another native generation than the window's is ignored. */
  lemma ForeignGenerationIsIgnored(s: State, port: nat, reason: nat, generation: nat, w: Window)
    requires OnlyWindow(s, port, w) && Generation(s, w).Some? && Generation(s, w) != Some(generation)
    ensures Step(s, Native(port, reason, Some(generation))) == s
  {
  }

  /** A live episode on its port: it fits its window, which nobody restores. */
  predicate LiveEpisode(s: State, port: nat, w: Window) {
    && port in s.table && s.table[port] < |s.episodes| && OnlyWindow(s, port, w) && s.selected
    && w.session !in s.claims
    && var e := s.episodes[s.table[port]];
       e.active == w && e.owner == s.owner && e.generation == Generation(s, w) && !e.retired
  }

  lemma LiveStays(s: State, port: nat, w: Window)
    requires LiveEpisode(s, port, w) && w in s.windows
    ensures StartEpisode(Refreshed(s, port), port, w) == s
  {
  }

  /** A further event: it replaces a waiting retry after a failure and restores at once; a
      wait after a success goes on; and without a wait one begins, for the backoff of the
      attempts so far. */
  lemma LaterEvents(s: State, port: nat, reason: nat, w: Window)
    requires 1 <= port <= 65535 && reason in {1, 4, 5} && LiveEpisode(s, port, w)
    requires 1 <= s.episodes[s.table[port]].attempts < 5
    ensures var id, t := s.table[port], Step(s, Native(port, reason, None));
            var attempts := s.episodes[id].attempts;
            if port in s.pending && s.pending[port].failedRetry
            then Called(s, t, id, w, attempts + 1) && port !in t.pending
            else if port in s.pending then t == s
            else port in t.pending && t.pending[port].episode == id && !t.pending[port].failedRetry
                 && t.pending[port].window == w && t.pending[port].delay == RestoreBackoffDelayMs(attempts)
                 && t.restores == s.restores
  {
    OnPortIsListed(s.windows, port);
    assert w in OnPort(s.windows, port);
    LiveStays(s, port, w);
    BackoffInNumbers(s.episodes[s.table[port]].attempts);
    assert Step(s, Native(port, reason, None)) == Recover(s, s.table[port], port);
  }
}

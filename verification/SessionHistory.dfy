/** What every run of the control session keeps: no late attempt revives a superseded
    session, no socket leaks, and reconnects of one generation share an attempt. */
module SessionHistory {
  import opened Wrappers
  import opened Session

  lemma StepKeepsCoherent(s: State, e: Event)
    requires Coherent(s) && AttemptsFenced(s)
    ensures Coherent(Step(s, e))
  {
    if e.Complete? && InPhase(s, e.attempt, true) {
      FinishKeepsCoherent(s, e.attempt);
    }
  }

  lemma FinishKeepsCoherent(s: State, i: nat)
    requires Coherent(s) && AttemptsFenced(s) && InPhase(s, i, true)
    ensures Coherent(Finish(s, i))
  {
    assert AttemptFenced(s, s.attempts[i]);
  }

  lemma StepKeepsFenced(s: State, e: Event)
    requires Fenced(s)
    ensures Fenced(Step(s, e))
  {
  }

  /** Attempts keep their identity, a finished one stays finished, and generations and
      issued selections only grow. */
  predicate Progress(s: State, t: State) {
    && |s.attempts| <= |t.attempts|
    && (forall i :: 0 <= i < |s.attempts| ==>
          && t.attempts[i].(actionAborted := false, phase := Done) == s.attempts[i].(actionAborted := false, phase := Done)
          && (s.attempts[i].phase.Done? ==> t.attempts[i].phase.Done?))
    && s.generation <= t.generation
    && s.issued <= t.issued
  }

  lemma StepProgress(s: State, e: Event)
    ensures Progress(s, Step(s, e))
  {
  }

  lemma NewAttemptFenced(s: State, e: Event)
    requires Coherent(s) && |Step(s, e).attempts| > |s.attempts|
    ensures |Step(s, e).attempts| == |s.attempts| + 1
    ensures AttemptFenced(Step(s, e), Step(s, e).attempts[|s.attempts|])
  {
  }

  lemma StepKeepsAttemptsFenced(s: State, e: Event)
    requires Coherent(s) && AttemptsFenced(s)
    ensures AttemptsFenced(Step(s, e))
  {
    var t := Step(s, e);
    StepProgress(s, e);
    forall i | 0 <= i < |t.attempts|
      ensures AttemptFenced(t, t.attempts[i])
    {
      if i < |s.attempts| {
        assert AttemptFenced(s, s.attempts[i]);
      } else {
        NewAttemptFenced(s, e);
      }
    }
  }

  lemma StepKeepsOneReconnect(s: State, e: Event)
    requires OneReconnect(s) && AttemptsFenced(s)
    ensures OneReconnect(Step(s, e))
  {
    if e.Complete? && InPhase(s, e.attempt, true) {
      FinishKeepsOneReconnect(s, e.attempt);
    } else if e.Disconnect? {
      DisconnectKeepsOneReconnect(s, e);
    }
  }

  lemma FinishKeepsOneReconnect(s: State, i: nat)
    requires OneReconnect(s) && InPhase(s, i, true)
    ensures OneReconnect(Finish(s, i))
  {
  }

  lemma DisconnectKeepsOneReconnect(s: State, e: Event)
    requires OneReconnect(s) && AttemptsFenced(s) && e.Disconnect?
    ensures OneReconnect(Step(s, e))
  {
    forall i | 0 <= i < |s.attempts|
      ensures s.attempts[i].generation <= s.generation
    {
      assert AttemptFenced(s, s.attempts[i]);
    }
  }

  // ---------------------------------------------------- ownership of sockets

  lemma FinishKeepsOwned(s: State, i: nat)
    requires Owned(s) && InPhase(s, i, true)
    ensures Owned(Finish(s, i))
  {
  }

  lemma OpenKeepsOwned(s: State, i: nat, usb: bool)
    requires Owned(s) && InPhase(s, i, false)
    ensures Owned(OpenSocket(s, i, usb))
  {
  }

  lemma NothingNewHeld(s: State, t: State)
    requires Owned(s) && t.nextSocket == s.nextSocket && (t.context == s.context || t.context.None?)
    requires forall i :: 0 <= i < |t.attempts| && t.attempts[i].phase.Holding? ==>
      i < |s.attempts| && t.attempts[i].phase == s.attempts[i].phase
    ensures Owned(t)
  {
  }

  lemma StepKeepsOwned(s: State, e: Event)
    requires Owned(s)
    ensures Owned(Step(s, e))
  {
    match e
    case Complete(i) => if InPhase(s, i, true) { FinishKeepsOwned(s, i); }
    case SocketOpened(i, usb) => if InPhase(s, i, false) { OpenKeepsOwned(s, i, usb); }
    case _ => NothingNewHeld(s, Step(s, e));
  }

  /** Everything held stays held, except by attempt `i`. */
  lemma HeldElsewhere(s: State, t: State, i: nat, n: nat)
    requires Held(s, n) && |s.attempts| <= |t.attempts|
    requires forall j :: 0 <= j < |s.attempts| && j != i ==> t.attempts[j].phase == s.attempts[j].phase
    requires i < |s.attempts| ==> s.attempts[i].phase != Holding(n, true) && s.attempts[i].phase != Holding(n, false)
    ensures Held(t, n)
  {
    var j :| 0 <= j < |s.attempts| && s.attempts[j].phase.Holding? && s.attempts[j].phase.socket == n;
    assert j != i && t.attempts[j].phase == s.attempts[j].phase;
  }

  lemma FinishKeepsNoLeak(s: State, i: nat)
    requires Coherent(s) && Owned(s) && NoLeak(s) && InPhase(s, i, true)
    ensures NoLeak(Finish(s, i))
  {
    var t := Finish(s, i);
    forall n | 0 <= n < t.nextSocket && n !in t.closed && t.client != Some(n)
      ensures Held(t, n)
    {
      assert Held(s, n);
      HeldElsewhere(s, t, i, n);
    }
  }

  lemma OpenKeepsNoLeak(s: State, i: nat, usb: bool)
    requires NoLeak(s) && InPhase(s, i, false)
    ensures NoLeak(OpenSocket(s, i, usb))
  {
    var t := OpenSocket(s, i, usb);
    forall n | 0 <= n < t.nextSocket && n !in t.closed && t.client != Some(n)
      ensures Held(t, n)
    {
      if n < s.nextSocket {
        HeldElsewhere(s, t, i, n);
      } else {
        assert t.attempts[i].phase == Holding(n, usb);
      }
    }
  }

  lemma CredentialFailureKeepsNoLeak(s: State, i: nat)
    requires NoLeak(s) && InPhase(s, i, true)
    ensures NoLeak(SetPhase(CloseSocket(s, s.attempts[i].phase.socket), i, Done))
  {
    var t := SetPhase(CloseSocket(s, s.attempts[i].phase.socket), i, Done);
    forall n | 0 <= n < t.nextSocket && n !in t.closed && t.client != Some(n)
      ensures Held(t, n)
    {
      HeldElsewhere(s, t, i, n);
    }
  }

  lemma OpenFailureKeepsNoLeak(s: State, i: nat)
    requires NoLeak(s) && InPhase(s, i, false)
    ensures NoLeak(SetPhase(s, i, Done))
  {
    var t := SetPhase(s, i, Done);
    forall n | 0 <= n < t.nextSocket && n !in t.closed && t.client != Some(n)
      ensures Held(t, n)
    {
      HeldElsewhere(s, t, i, n);
    }
  }

  /** Steps that change no phase of an existing attempt. */
  predicate Bystander(e: Event) {
    !e.Complete? && !e.SocketOpened? && !e.CredentialFails? && !e.OpenFails?
  }

  lemma BystanderKeepsNoLeak(s: State, e: Event)
    requires NoLeak(s) && Bystander(e)
    ensures NoLeak(Step(s, e))
  {
    var t := Step(s, e);
    assert forall j :: 0 <= j < |s.attempts| ==> t.attempts[j].phase == s.attempts[j].phase;
    forall n | 0 <= n < t.nextSocket && n !in t.closed && t.client != Some(n)
      ensures Held(t, n)
    {
      assert Held(s, n);
      HeldElsewhere(s, t, |s.attempts|, n);
    }
  }

  lemma StepKeepsNoLeak(s: State, e: Event)
    requires Coherent(s) && Owned(s) && NoLeak(s)
    ensures NoLeak(Step(s, e))
  {
    match e
    case Complete(i) => if InPhase(s, i, true) { FinishKeepsNoLeak(s, i); }
    case SocketOpened(i, usb) => if InPhase(s, i, false) { OpenKeepsNoLeak(s, i, usb); }
    case CredentialFails(i) => if InPhase(s, i, true) { CredentialFailureKeepsNoLeak(s, i); }
    case OpenFails(i) =>
      if InPhase(s, i, false) { OpenFailureKeepsNoLeak(s, i); }
    case _ => BystanderKeepsNoLeak(s, e);
  }

  predicate Sound(s: State) {
    Coherent(s) && Fenced(s) && AttemptsFenced(s) && Owned(s) && NoLeak(s) && OneReconnect(s)
  }

  /** In every run: a non-null client is the active context's, abort signals follow the
      generations, every socket that is neither closed nor the client belongs to an
      unfinished attempt, and a generation has at most one unfinished reconnect. */
  lemma {:induction false} RunKeepsSound(s: State, events: seq<Event>)
    requires Sound(s)
    ensures Sound(Run(s, events))
    decreases events
  {
    if events != [] {
      var e := events[0];
      StepKeepsCoherent(s, e);
      StepKeepsFenced(s, e);
      StepKeepsAttemptsFenced(s, e);
      StepKeepsOwned(s, e);
      StepKeepsNoLeak(s, e);
      StepKeepsOneReconnect(s, e);
      RunKeepsSound(Step(s, e), events[1..]);
    }
  }

  /** Every socket whose attempt has finished is closed or the current client. */
  lemma NoSocketLeaks(events: seq<Event>, n: nat)
    requires n < Run(Initial, events).nextSocket
    ensures var s := Run(Initial, events);
            n in s.closed || s.client == Some(n) || Held(s, n)
  {
    RunKeepsSound(Initial, events);
  }

  // ----------------------------------------------------------- superseded

  /** A newer selection or a disconnect came after this attempt, or its reconnect no
      longer continues the active context. */
  predicate Superseded(s: State, a: Attempt) {
    a.generation != s.generation || (a.origin.Some? && !Current(s, a.origin.value))
  }

  function EventAttempt(e: Event): Option<nat> {
    match e
    case AbortAction(i) => Some(i)
    case SocketOpened(i, _) => Some(i)
    case OpenFails(i) => Some(i)
    case CredentialFails(i) => Some(i)
    case Complete(i) => Some(i)
    case Retire(i) => Some(i)
    case _ => None
  }

  /** What the application sees of the session. */
  function View(s: State): (Option<nat>, Option<Context>, Option<Endpoint>, Option<Endpoint>, nat) {
    (s.client, s.context, s.hostAddr, s.hostTarget, s.generation)
  }

  /** A superseded attempt changes nothing the application sees, and a socket it still
      held is closed when it completes. */
  lemma SupersededStepIsInert(s: State, e: Event, i: nat)
    requires Coherent(s) && AttemptsFenced(s)
    requires EventAttempt(e) == Some(i) && i < |s.attempts| && Superseded(s, s.attempts[i])
    ensures View(Step(s, e)) == View(s)
    ensures e.Complete? && s.attempts[i].phase.Holding? ==>
      Step(s, e).attempts[i].phase.Done? && s.attempts[i].phase.socket in Step(s, e).closed
  {
    assert AttemptFenced(s, s.attempts[i]);
  }

  lemma StepKeepsStale(s: State, e: Event, context: Context)
    requires Coherent(s) && AttemptsFenced(s) && MadeBy(s, context) && !Current(s, context)
    ensures MadeBy(Step(s, e), context) && !Current(Step(s, e), context)
  {
    StepProgress(s, e);
  }

  /** A request context that is no longer current never becomes current again. */
  lemma {:induction false} StaleContextStaysStale(s: State, events: seq<Event>, context: Context)
    requires Coherent(s) && AttemptsFenced(s) && MadeBy(s, context) && !Current(s, context)
    ensures !Current(Run(s, events), context)
    decreases events
  {
    if events != [] {
      StepKeepsCoherent(s, events[0]);
      StepKeepsAttemptsFenced(s, events[0]);
      StepKeepsStale(s, events[0], context);
      StaleContextStaysStale(Step(s, events[0]), events[1..], context);
    }
  }

  lemma {:induction false} RunProgress(s: State, events: seq<Event>)
    ensures Progress(s, Run(s, events))
    decreases events
  {
    if events != [] {
      StepProgress(s, events[0]);
      RunProgress(Step(s, events[0]), events[1..]);
    }
  }

  /** Once superseded, an attempt stays superseded, so no event of it ever changes the
      session again. */
  lemma SupersededForever(s: State, events: seq<Event>, i: nat, e: Event)
    requires Sound(s) && i < |s.attempts| && Superseded(s, s.attempts[i])
    requires EventAttempt(e) == Some(i)
    ensures View(Step(Run(s, events), e)) == View(Run(s, events))
  {
    RunKeepsSound(s, events);
    RunProgress(s, events);
    var t := Run(s, events);
    var a := s.attempts[i];
    assert AttemptFenced(s, a);
    if a.origin.Some? && !Current(s, a.origin.value) {
      StaleContextStaysStale(s, events, a.origin.value);
    }
    assert Superseded(t, t.attempts[i]);
    SupersededStepIsInert(t, e, i);
  }

  predicate AllOlder(s: State) {
    forall i :: 0 <= i < |s.attempts| ==> s.attempts[i].generation < s.generation
  }

  lemma {:induction false} RunAfterDisconnect(s: State, events: seq<Event>)
    requires s.client.None? && s.context.None? && forall e :: e in events ==> !e.Connect?
    requires AllOlder(s)
    ensures Run(s, events).client.None? && Run(s, events).context.None?
    decreases events
  {
    if events != [] {
      RunAfterDisconnect(Step(s, events[0]), events[1..]);
    }
  }

  /** Disconnecting is final: whatever was pending, nothing brings the session back but
      a new connect. */
  lemma DisconnectIsFinal(s: State, events: seq<Event>)
    requires Sound(s) && forall e :: e in events ==> !e.Connect?
    ensures Run(Step(s, Disconnect(None)), events).client.None?
    ensures Run(Step(s, Disconnect(None)), events).context.None?
  {
    var t := Step(s, Disconnect(None));
    forall i | 0 <= i < |t.attempts|
      ensures t.attempts[i].generation < t.generation
    {
      assert AttemptFenced(s, s.attempts[i]);
    }
    RunAfterDisconnect(t, events);
  }

  // ------------------------------------------------- is the client's socket open?

  /** The guard that fails: the socket closed by itself while its attempt was still
      waiting, before anyone listened for its close. */
  predicate InstallsClosedSocket(s: State, e: Event) {
    && e.Complete? && InPhase(s, e.attempt, true)
    && Wins(s, s.attempts[e.attempt])
    && s.attempts[e.attempt].phase.socket in s.closed
  }

  predicate ClientOpen(s: State) {
    s.client.Some? ==> s.client.value !in s.closed && s.client.value in s.watched
  }

  /** One step: an open client stays open exactly unless the step installs a socket that
      had already closed. */
  lemma OpenUnlessInstalled(s: State, e: Event)
    requires Coherent(s) && AttemptsFenced(s) && Owned(s) && ClientOpen(s)
    ensures ClientOpen(Step(s, e)) <==> !InstallsClosedSocket(s, e)
  {
  }

  function At(events: seq<Event>, k: nat): State
    requires k <= |events|
  {
    Run(Initial, events[..k])
  }

  lemma {:induction false} RunSnoc(s: State, events: seq<Event>, e: Event)
    ensures Run(s, events + [e]) == Step(Run(s, events), e)
    decreases events
  {
    if events == [] {
      assert [] + [e] == [e] && [e][1..] == [];
    } else {
      assert (events + [e])[1..] == events[1..] + [e];
      RunSnoc(Step(s, events[0]), events[1..], e);
    }
  }

  lemma NextState(events: seq<Event>, k: nat)
    requires k < |events|
    ensures At(events, k + 1) == Step(At(events, k), events[k])
  {
    assert events[..k + 1] == events[..k] + [events[k]];
    RunSnoc(Initial, events[..k], events[k]);
  }

  /** Sockets are closed only after they were opened. */
  predicate ClosedAreKnown(s: State) { forall n :: n in s.closed ==> n < s.nextSocket }

  lemma StepKeepsClosedKnown(s: State, e: Event)
    requires Coherent(s) && AttemptsFenced(s) && Owned(s) && ClosedAreKnown(s)
    ensures ClosedAreKnown(Step(s, e))
  {
  }

  lemma {:induction false} PrefixIsSound(events: seq<Event>, k: nat)
    requires k <= |events|
    ensures Sound(At(events, k)) && ClosedAreKnown(At(events, k))
    decreases k
  {
    RunKeepsSound(Initial, events[..k]);
    if k > 0 {
      PrefixIsSound(events, k - 1);
      NextState(events, k - 1);
      StepKeepsClosedKnown(At(events, k - 1), events[k - 1]);
    }
  }

  predicate HoldsSocket(s: State, i: nat) { InPhase(s, i, true) }

  /** The socket this attempt is holding closes by itself. */
  predicate ClosesWhileHeld(s: State, e: Event, i: nat) {
    HoldsSocket(s, i) && e == SocketCloses(s.attempts[i].phase.socket)
  }

  lemma HoldingWhileAnotherCompletes(s: State, e: Event, i: nat)
    requires Coherent(s) && AttemptsFenced(s) && Owned(s) && ClosedAreKnown(s)
    requires HoldsSocket(Step(s, e), i) && e.Complete?
    ensures var t := Step(s, e);
            var n := t.attempts[i].phase.socket;
            if HoldsSocket(s, i)
            then s.attempts[i].phase.socket == n && (n in t.closed <==> n in s.closed || ClosesWhileHeld(s, e, i))
            else n !in t.closed && (i < |s.attempts| ==> s.attempts[i].phase.Opening?)
  {
  }

  lemma HoldingWhileDisconnecting(s: State, e: Event, i: nat)
    requires Coherent(s) && AttemptsFenced(s) && Owned(s) && ClosedAreKnown(s)
    requires HoldsSocket(Step(s, e), i) && e.Disconnect?
    ensures var t := Step(s, e);
            var n := t.attempts[i].phase.socket;
            if HoldsSocket(s, i)
            then s.attempts[i].phase.socket == n && (n in t.closed <==> n in s.closed || ClosesWhileHeld(s, e, i))
            else n !in t.closed && (i < |s.attempts| ==> s.attempts[i].phase.Opening?)
  {
  }

  /** An attempt's socket stays the same while it holds it, is open at first, and closes
      only by itself. */
  lemma HoldingStep(s: State, e: Event, i: nat)
    requires Coherent(s) && AttemptsFenced(s) && Owned(s) && ClosedAreKnown(s)
    requires HoldsSocket(Step(s, e), i)
    ensures var t := Step(s, e);
            var n := t.attempts[i].phase.socket;
            if HoldsSocket(s, i)
            then s.attempts[i].phase.socket == n && (n in t.closed <==> n in s.closed || ClosesWhileHeld(s, e, i))
            else n !in t.closed && (i < |s.attempts| ==> s.attempts[i].phase.Opening?)
  {
    if e.Complete? {
      HoldingWhileAnotherCompletes(s, e, i);
    } else if e.Disconnect? {
      HoldingWhileDisconnecting(s, e, i);
    }
  }

  lemma {:induction false} NeverHeldBefore(events: seq<Event>, k: nat, j: nat, i: nat)
    requires j <= k <= |events|
    requires i < |At(events, k).attempts| ==> At(events, k).attempts[i].phase.Opening?
    ensures !HoldsSocket(At(events, j), i)
    decreases k
  {
    if j < k {
      NextState(events, k - 1);
      NeverHeldBefore(events, k - 1, j, i);
    }
  }

  ghost predicate ClosedWhileHeld(events: seq<Event>, k: nat, i: nat)
    requires k <= |events|
  {
    exists j :: 0 <= j < k && ClosesWhileHeld(At(events, j), events[j], i)
  }

  /** A held socket is closed exactly if it closed by itself while it was held. */
  lemma {:induction false} HeldIsClosedIff(events: seq<Event>, k: nat, i: nat)
    requires k <= |events| && HoldsSocket(At(events, k), i)
    ensures At(events, k).attempts[i].phase.socket in At(events, k).closed <==> ClosedWhileHeld(events, k, i)
    decreases k
  {
    if k > 0 {
      var s, e := At(events, k - 1), events[k - 1];
      PrefixIsSound(events, k - 1);
      NextState(events, k - 1);
      HoldingStep(s, e, i);
      if HoldsSocket(s, i) {
        HeldIsClosedIff(events, k - 1, i);
        assert ClosedWhileHeld(events, k, i) <==> ClosedWhileHeld(events, k - 1, i) || ClosesWhileHeld(s, e, i);
      } else {
        forall j | 0 <= j < k
          ensures !ClosesWhileHeld(At(events, j), events[j], i)
        {
          NeverHeldBefore(events, k - 1, j, i);
        }
      }
    }
  }

  /** The only way a dead socket becomes the client: it closes while its attempt holds
      it, and the attempt later completes and wins. */
  ghost predicate DeadCompletion(events: seq<Event>, k: nat)
    requires k < |events|
  {
    var s, e := At(events, k), events[k];
    && e.Complete? && HoldsSocket(s, e.attempt) && Wins(s, s.attempts[e.attempt])
    && ClosedWhileHeld(events, k, e.attempt)
  }

  lemma DeadCompletionIff(events: seq<Event>, k: nat)
    requires k < |events|
    ensures DeadCompletion(events, k) <==> InstallsClosedSocket(At(events, k), events[k])
  {
    if events[k].Complete? && HoldsSocket(At(events, k), events[k].attempt) {
      HeldIsClosedIff(events, k, events[k].attempt);
    }
  }

  lemma {:induction false} OpenUntil(events: seq<Event>, k: nat)
    requires k <= |events| && forall j :: 0 <= j < k ==> !DeadCompletion(events, j)
    ensures ClientOpen(At(events, k))
    decreases k
  {
    if k > 0 {
      OpenUntil(events, k - 1);
      PrefixIsSound(events, k - 1);
      NextState(events, k - 1);
      DeadCompletionIff(events, k - 1);
      OpenUnlessInstalled(At(events, k - 1), events[k - 1]);
    }
  }

  /** In every run the client is an open socket throughout if and only if no socket
      closes by itself while held by an attempt that later completes and wins. */
  lemma ClientStaysOpenIff(events: seq<Event>)
    ensures (forall k :: 0 <= k <= |events| ==> ClientOpen(At(events, k)))
       <==> (forall k :: 0 <= k < |events| ==> !DeadCompletion(events, k))
  {
    if forall k :: 0 <= k < |events| ==> !DeadCompletion(events, k) {
      forall k | 0 <= k <= |events|
        ensures ClientOpen(At(events, k))
      {
        OpenUntil(events, k);
      }
    } else {
      var k :| 0 <= k < |events| && DeadCompletion(events, k);
      if ClientOpen(At(events, k)) {
        PrefixIsSound(events, k);
        NextState(events, k);
        DeadCompletionIff(events, k);
        OpenUnlessInstalled(At(events, k), events[k]);
        assert !ClientOpen(At(events, k + 1));
      }
    }
  }

  /** A dead socket can be shown as connected: it closes between opening and install. */
  lemma DeadSocketIsInstalled()
    ensures var events := [Connect(Endpoint("host", 1), true, None, false), SocketOpened(0, false), SocketCloses(0), Complete(0)];
            Run(Initial, events).client == Some(0) && 0 in Run(Initial, events).closed
  {
    var a := Step(Initial, Connect(Endpoint("host", 1), true, None, false));
    assert |a.attempts| == 1 && a.attempts[0].generation == a.generation == 1;
    var b := Step(a, SocketOpened(0, false));
    var c := Step(b, SocketCloses(0));
    var d := Step(c, Complete(0));
    assert Run(d, []) == d;
    assert Run(c, [Complete(0)]) == Run(d, []);
    assert Run(b, [SocketCloses(0), Complete(0)]) == Run(c, [Complete(0)]);
    assert Run(a, [SocketOpened(0, false), SocketCloses(0), Complete(0)]) == Run(b, [SocketCloses(0), Complete(0)]);
  }

  // ------------------------------------------------- completing does install

  /** The session that a completed attempt made, in fields: its socket is the client and
      watched, a new context names the socket, the target and the generation, and of all
      sockets only `previous` was closed. */
  predicate Installed(s: State, t: State, i: nat, n: nat, previous: Option<nat>)
    requires i < |s.attempts|
  {
    && t.client == Some(n) && n in t.watched
    && t.hostAddr == Some(s.attempts[i].target)
    && t.context == Some(Context(i, n, s.attempts[i].target, s.attempts[i].generation))
    && t.closed == s.closed + (if previous.Some? && previous.value != n then {previous.value} else {})
    && |t.attempts| == |s.attempts| && t.attempts[i].phase == Done
    && t.generation == s.generation && t.aborted == s.aborted
  }

  /** A reconnect whose context is still the session's, under the session's generation and
      an unaborted signal, with no client or the context's own, becomes the client. */
  lemma ReconnectInstalls(s: State, i: nat, n: nat, usb: bool, origin: Context)
    requires i < |s.attempts| && s.attempts[i].phase == Holding(n, usb) && s.attempts[i].origin == Some(origin)
    requires s.context == Some(origin) && origin.generation == s.generation
    requires s.attempts[i].signal !in s.aborted && (s.client == None || s.client == Some(origin.client))
    ensures Installed(s, Step(s, Complete(i)), i, n, Some(origin.client))
    ensures Step(s, Complete(i)).hostTarget == s.hostTarget
  {
  }

  /** A connect of the current generation that neither signal aborted becomes the client,
      and the client before it is closed. */
  lemma ConnectInstalls(s: State, i: nat, n: nat, usb: bool)
    requires i < |s.attempts| && s.attempts[i].phase == Holding(n, usb) && s.attempts[i].origin == None
    requires s.attempts[i].generation == s.generation
    requires s.attempts[i].signal !in s.aborted && !s.attempts[i].actionAborted
    ensures Installed(s, Step(s, Complete(i)), i, n, s.client)
    ensures Step(s, Complete(i)).hostTarget == Some(s.attempts[i].target)
  {
  }

  /** An attempt that may not install closes its own socket and changes nothing shown. */
  lemma OthersAreClosed(s: State, i: nat, n: nat, usb: bool)
    requires i < |s.attempts| && s.attempts[i].phase == Holding(n, usb)
    requires match s.attempts[i].origin
             case None => s.attempts[i].signal in s.aborted || s.attempts[i].actionAborted
                          || s.attempts[i].generation != s.generation
             case Some(origin) => s.attempts[i].signal in s.aborted || s.context != Some(origin)
                                  || origin.generation != s.generation
                                  || (s.client.Some? && s.client != Some(origin.client))
    ensures var t := Step(s, Complete(i));
            View(t) == View(s) && t.closed == s.closed + {n} && t.attempts[i].phase == Done
  {
  }

  /** A current context, in fields. */
  predicate Usable(s: State, context: Context) {
    && s.context == Some(context) && context.generation == s.generation
    && (s.client == None || s.client == Some(context.client))
  }

  /** Starting a reconnect: for a usable context, unless one of its generation is in
      flight, a new attempt at the context's target under the session's signal. */
  lemma ReconnectStarts(s: State, context: Context)
    requires Usable(s, context) && (s.inFlight.Some? ==> s.inFlight.value.generation != context.generation)
    ensures var t, i := Step(s, Reconnect(Some(context))), |s.attempts|;
            && |t.attempts| == i + 1
            && t.attempts[i] == Attempt(context.target, context.generation, s.signal, Some(context), false, Opening)
            && (forall j :: 0 <= j < i ==> t.attempts[j] == s.attempts[j])
            && t.inFlight == Some(InFlight(context.generation, i))
            && t.(attempts := s.attempts, inFlight := s.inFlight) == s
  {
  }

  /** Starting a connect to a trusted host: with no selection given it begins one, so the
      previous signal is aborted and the generation is new. */
  lemma ConnectStarts(s: State, target: Endpoint)
    ensures var t, i := Step(s, Connect(target, true, None, false)), |s.attempts|;
            && t.generation == s.generation + 1 && t.signal == s.signal + 1 && t.aborted == s.aborted + {s.signal}
            && |t.attempts| == i + 1
            && t.attempts[i] == Attempt(target, s.generation + 1, s.signal + 1, None, false, Opening)
            && t.client == s.client && t.context == s.context
  {
  }

  /** A connect under a selection that is still the session's starts under that selection
      and disturbs nothing. */
  lemma ConnectStartsUnderItsSelection(s: State, target: Endpoint, selection: Selection)
    requires selection in s.issued && selection.generation == s.generation
    ensures var t, i := Step(s, Connect(target, true, Some(selection), false)), |s.attempts|;
            && |t.attempts| == i + 1
            && t.attempts[i] == Attempt(target, selection.generation, selection.signal, None, false, Opening)
            && t.(attempts := s.attempts) == s
  {
  }

  /** A reconnect for a context that is not usable, or while one of its generation is in
      flight, changes nothing: the caller is refused, or joins. */
  lemma ReconnectIsRefusedOrJoined(s: State, context: Context)
    requires !Usable(s, context) || (s.inFlight.Some? && s.inFlight.value.generation == context.generation)
    ensures Step(s, Reconnect(Some(context))) == s && Step(s, Reconnect(None)) == s
  {
  }

  /** The end of the attempt in flight makes room for the next reconnect. */
  lemma RetireMakesRoom(s: State, i: nat)
    requires i < |s.attempts| && s.attempts[i].phase == Done
    ensures var t := Step(s, Retire(i));
            && t.inFlight == (if s.inFlight.Some? && s.inFlight.value.attempt == i then None else s.inFlight)
            && t.(inFlight := s.inFlight) == s
  {
  }

  /** A disconnect without a scope, or for a usable context, ends the session: the client
      is closed, nothing is shown, pending work is aborted, and a reconnect in flight is
      forgotten. For any other context it does nothing. */
  lemma DisconnectEnds(s: State, scope: Option<Context>)
    ensures var t := Step(s, Disconnect(scope));
            if scope.None? || Usable(s, scope.value) then
              && t.client == None && t.hostAddr == None && t.hostTarget == None && t.context == None && t.inFlight == None
              && t.generation == s.generation + 1 && t.aborted == s.aborted + {s.signal}
              && t.closed == s.closed + (if s.client.Some? then {s.client.value} else {})
              && t.attempts == s.attempts
            else t == s
  {
  }

  /** A network socket that opens for an aborted attempt is closed at once; over USB the
      socket is handed on. */
  lemma AbortedOpenIsClosed(s: State, i: nat)
    requires i < |s.attempts| && s.attempts[i].phase == Opening
    requires s.attempts[i].signal in s.aborted || s.attempts[i].actionAborted
    ensures var t := Step(s, SocketOpened(i, false));
            && s.nextSocket in t.closed && |t.attempts| == |s.attempts| && t.attempts[i].phase == Done
            && View(t) == View(s)
    ensures Step(s, SocketOpened(i, true)).attempts[i].phase == Holding(s.nextSocket, true)
  {
  }

  /** A socket that opens for an attempt nobody aborted is held under a new number. */
  lemma OpenIsHeld(s: State, i: nat, usb: bool)
    requires i < |s.attempts| && s.attempts[i].phase == Opening
    requires s.attempts[i].signal !in s.aborted && !s.attempts[i].actionAborted
    ensures var t := Step(s, SocketOpened(i, usb));
            && t.nextSocket == s.nextSocket + 1 && |t.attempts| == |s.attempts|
            && t.attempts[i] == s.attempts[i].(phase := Holding(s.nextSocket, usb))
            && t.(attempts := s.attempts, nextSocket := s.nextSocket) == s
  {
  }

  /** The client's socket closes by itself: the context stays, the client is gone. */
  lemma LossKeepsTheContext(s: State, n: nat)
    requires s.client == Some(n) && n in s.watched && n < s.nextSocket
    ensures var t := Step(s, SocketCloses(n));
            && t.client == None && t.hostAddr == None && t.closed == s.closed + {n}
            && t.(client := s.client, hostAddr := s.hostAddr, closed := s.closed) == s
  {
  }

  /** A context without a client is reconnected from its start to the new client. */
  lemma ReconnectRuns(s: State, context: Context, usb: bool)
    requires s.client == None && s.context == Some(context) && context.generation == s.generation
    requires s.signal !in s.aborted && s.nextSocket !in s.closed && context.client != s.nextSocket
    requires s.inFlight.Some? ==> s.inFlight.value.generation != s.generation
    ensures var i, m := |s.attempts|, s.nextSocket;
            var back := Step(Step(Step(s, Reconnect(Some(context))), SocketOpened(i, usb)), Complete(i));
            && back.client == Some(m) && m !in back.closed && back.hostAddr == Some(context.target)
            && back.context == Some(Context(i, m, context.target, s.generation))
            && back.generation == s.generation
  {
    var i := |s.attempts|;
    ReconnectStarts(s, context);
    var started := Step(s, Reconnect(Some(context)));
    OpenIsHeld(started, i, usb);
    var held := Step(started, SocketOpened(i, usb));
    ReconnectInstalls(held, i, s.nextSocket, usb, context);
  }

  /** A connection that is lost can be had back: the client's socket closes by itself, the
      context is reconnected, a socket opens, and it is the client. */
  lemma LostConnectionComesBack(s: State, n: nat, context: Context, usb: bool)
    requires Coherent(s) && ClosedAreKnown(s) && s.client == Some(n) && n in s.watched && n < s.nextSocket
    requires s.context == Some(context) && context.generation == s.generation && s.signal !in s.aborted
    requires s.inFlight.Some? ==> s.inFlight.value.generation != s.generation
    ensures var i, m := |s.attempts|, s.nextSocket;
            var back := Run(s, [SocketCloses(n), Reconnect(Some(context)), SocketOpened(i, usb), Complete(i)]);
            && back.client == Some(m) && m !in back.closed && back.hostAddr == Some(context.target)
            && back.context == Some(Context(i, m, context.target, s.generation))
            && back.generation == s.generation
  {
    var i := |s.attempts|;
    LossKeepsTheContext(s, n);
    ReconnectRuns(Step(s, SocketCloses(n)), context, usb);
    RunOfFour(s, SocketCloses(n), Reconnect(Some(context)), SocketOpened(i, usb), Complete(i));
  }

  /** The same from the very start: connect, lose the socket, reconnect. */
  lemma FirstConnectionComesBack(target: Endpoint, usb: bool, again: bool)
    ensures var up := Run(Initial, [Connect(target, true, None, false), SocketOpened(0, usb), Complete(0)]);
            && up.client == Some(0) && up.context == Some(Context(0, 0, target, 1))
            && var back := Run(up, [SocketCloses(0), Reconnect(Some(Context(0, 0, target, 1))), SocketOpened(1, again), Complete(1)]);
               back.client == Some(1) && 1 !in back.closed && back.hostAddr == Some(target)
  {
    var a := Step(Initial, Connect(target, true, None, false));
    ConnectStarts(Initial, target);
    OpenIsHeld(a, 0, usb);
    var b := Step(a, SocketOpened(0, usb));
    ConnectInstalls(b, 0, 0, usb);
    var c := Step(b, Complete(0));
    RunOfThree(Initial, Connect(target, true, None, false), SocketOpened(0, usb), Complete(0));
    LostConnectionComesBack(c, 0, Context(0, 0, target, 1), again);
  }

  lemma RunOfThree(s: State, a: Event, b: Event, c: Event)
    ensures Run(s, [a, b, c]) == Step(Step(Step(s, a), b), c)
  {
    assert [a, b, c][1..] == [b, c] && [b, c][1..] == [c] && [c][1..] == [];
    var s1 := Step(s, a);
    var s2 := Step(s1, b);
    assert Run(s2, [c]) == Step(s2, c);
    assert Run(s1, [b, c]) == Run(s2, [c]);
  }

  lemma RunOfFour(s: State, a: Event, b: Event, c: Event, d: Event)
    ensures Run(s, [a, b, c, d]) == Step(Step(Step(Step(s, a), b), c), d)
  {
    assert [a, b, c, d][1..] == [b, c, d] && [b, c, d][1..] == [c, d] && [c, d][1..] == [d] && [d][1..] == [];
    var s1 := Step(s, a);
    var s2 := Step(s1, b);
    var s3 := Step(s2, c);
    assert Run(s3, [d]) == Step(s3, d);
    assert Run(s2, [c, d]) == Run(s3, [d]);
    assert Run(s1, [b, c, d]) == Run(s2, [c, d]);
  }
}

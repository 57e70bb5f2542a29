/** The control session (apps/viewer-expo/src/session.ts): connects, reconnects,
    selections and disconnects race, and every `await` ends a step. A suspended
    connect or reconnect is an attempt; sockets and abort signals are numbered. */
module Session {
  import opened Wrappers

  datatype Endpoint = Endpoint(host: string, port: nat)

  datatype Selection = Selection(generation: nat, signal: nat)

  /** Contexts are compared by reference: `attempt` names the attempt that made one. */
  datatype Context = Context(attempt: nat, client: nat, target: Endpoint, generation: nat)

  datatype Phase = Opening | Holding(socket: nat, usb: bool) | Done

  datatype Attempt = Attempt(
    target: Endpoint, generation: nat, signal: nat, origin: Option<Context>, actionAborted: bool, phase: Phase)

  datatype InFlight = InFlight(generation: nat, attempt: nat)

  datatype State = State(
    client: Option<nat>,
    hostAddr: Option<Endpoint>,
    hostTarget: Option<Endpoint>,
    context: Option<Context>,
    generation: nat,
    signal: nat,
    aborted: set<nat>,
    issued: set<Selection>,
    inFlight: Option<InFlight>,
    attempts: seq<Attempt>,
    nextSocket: nat,
    closed: set<nat>,
    watched: set<nat>)

  const Initial := State(None, None, None, None, 0, 0, {}, {}, None, [], 0, {}, {})

  datatype Event =
    | Select
    | Connect(target: Endpoint, trusted: bool, selection: Option<Selection>, actionAborted: bool)
    | AbortAction(attempt: nat)
    | SocketOpened(attempt: nat, usb: bool)
    | OpenFails(attempt: nat)
    | CredentialFails(attempt: nat)
    | Complete(attempt: nat)
    | Reconnect(origin: Option<Context>)
    | Retire(attempt: nat)
    | Disconnect(scope: Option<Context>)
    | SocketCloses(socket: nat)

  predicate Current(s: State, context: Context) {
    && s.context == Some(context)
    && (s.client == Some(context.client) || s.client.None?)
    && s.generation == context.generation
  }

  predicate Cancelled(s: State, a: Attempt) {
    a.signal in s.aborted || a.actionAborted
  }

  function BeginSelection(s: State): State {
    s.(aborted := s.aborted + {s.signal}, signal := s.signal + 1, generation := s.generation + 1,
       issued := s.issued + {Selection(s.generation + 1, s.signal + 1)})
  }

  function StartAttempt(s: State, a: Attempt): State {
    s.(attempts := s.attempts + [a])
  }

  function StartConnect(s: State, target: Endpoint, selection: Selection, actionAborted: bool): State {
    if actionAborted || selection.generation != s.generation then s
    else StartAttempt(s, Attempt(target, selection.generation, selection.signal, None, false, Opening))
  }

  function SetPhase(s: State, i: nat, phase: Phase): State
    requires i < |s.attempts|
  {
    s.(attempts := s.attempts[i := s.attempts[i].(phase := phase)])
  }

  function CloseSocket(s: State, socket: nat): State {
    s.(closed := s.closed + {socket})
  }

  /** May this attempt still publish its socket? */
  predicate Wins(s: State, a: Attempt) {
    match a.origin
    case None => !Cancelled(s, a) && a.generation == s.generation
    case Some(origin) => a.signal !in s.aborted && Current(s, origin)
  }

  function Install(s: State, i: nat, socket: nat): State
    requires i < |s.attempts|
  {
    var a := s.attempts[i];
    var previous := match a.origin case None => s.client case Some(origin) => Some(origin.client);
    SetPhase(
      s.(client := Some(socket), hostAddr := Some(a.target),
         hostTarget := if a.origin.None? then Some(a.target) else s.hostTarget,
         context := Some(Context(i, socket, a.target, a.generation)),
         closed := s.closed + (if previous.Some? && previous.value != socket then {previous.value} else {}),
         watched := s.watched + {socket}),
      i, Done)
  }

  function Finish(s: State, i: nat): State
    requires i < |s.attempts| && s.attempts[i].phase.Holding?
  {
    var socket := s.attempts[i].phase.socket;
    if Wins(s, s.attempts[i]) then Install(s, i, socket)
    else SetPhase(CloseSocket(s, socket), i, Done)
  }

  function OpenSocket(s: State, i: nat, usb: bool): State
    requires i < |s.attempts|
  {
    var o := s.(nextSocket := s.nextSocket + 1);
    // A network socket that opens after an abort is closed at once; the USB path
    // hands its socket over unchecked.
    if !usb && Cancelled(s, s.attempts[i]) then SetPhase(CloseSocket(o, s.nextSocket), i, Done)
    else SetPhase(o, i, Holding(s.nextSocket, usb))
  }

  predicate InPhase(s: State, i: nat, holding: bool) {
    i < |s.attempts| && if holding then s.attempts[i].phase.Holding? else s.attempts[i].phase.Opening?
  }

  function StartReconnect(s: State, origin: Context): State {
    if !Current(s, origin) then s
    else if s.inFlight.Some? && s.inFlight.value.generation == origin.generation then s
    else
      StartAttempt(
        s.(inFlight := Some(InFlight(origin.generation, |s.attempts|))),
        Attempt(origin.target, origin.generation, s.signal, Some(origin), false, Opening))
  }

  function DisconnectNow(s: State): State {
    s.(aborted := s.aborted + {s.signal}, generation := s.generation + 1,
       closed := s.closed + (if s.client.Some? then {s.client.value} else {}),
       client := None, hostAddr := None, hostTarget := None, context := None, inFlight := None)
  }

  function SocketClosed(s: State, socket: nat): State {
    var c := CloseSocket(s, socket);
    if socket in s.watched && s.client == Some(socket) then c.(client := None, hostAddr := None) else c
  }

  function Step(s: State, e: Event): State {
    match e
    case Select => BeginSelection(s)
    case Connect(target, trusted, selection, actionAborted) =>
      if !trusted then s
      else
        (match selection
         case None =>
           var b := BeginSelection(s);
           StartConnect(b, target, Selection(b.generation, b.signal), actionAborted)
         case Some(selection) =>
           // A selection only comes from beginHostSelection.
           if selection in s.issued then StartConnect(s, target, selection, actionAborted) else s)
    case AbortAction(i) =>
      if i < |s.attempts| && s.attempts[i].origin.None?
      then s.(attempts := s.attempts[i := s.attempts[i].(actionAborted := true)]) else s
    case SocketOpened(i, usb) => if InPhase(s, i, false) then OpenSocket(s, i, usb) else s
    case OpenFails(i) => if InPhase(s, i, false) then SetPhase(s, i, Done) else s
    case CredentialFails(i) =>
      if InPhase(s, i, true) && !s.attempts[i].phase.usb
      then SetPhase(CloseSocket(s, s.attempts[i].phase.socket), i, Done) else s
    case Complete(i) => if InPhase(s, i, true) then Finish(s, i) else s
    case Reconnect(origin) => if origin.Some? then StartReconnect(s, origin.value) else s
    case Retire(i) =>
      if s.inFlight.Some? && s.inFlight.value.attempt == i && i < |s.attempts| && s.attempts[i].phase.Done?
      then s.(inFlight := None) else s
    case Disconnect(scope) => if scope.Some? && !Current(s, scope.value) then s else DisconnectNow(s)
    case SocketCloses(socket) => if socket < s.nextSocket then SocketClosed(s, socket) else s
  }

  function Run(s: State, events: seq<Event>): State
    decreases events
  {
    if events == [] then s else Run(Step(s, events[0]), events[1..])
  }

  // ------------------------------------------- the module variables, in place

  class ControlSession {
    var client: Option<nat>
    var hostAddr: Option<Endpoint>
    var hostTarget: Option<Endpoint>
    var activeContext: Option<Context>
    var connectGeneration: nat
    var selectionSignal: nat
    var abortedSignals: set<nat>
    ghost var issued: set<Selection>
    var reconnectInFlight: Option<InFlight>
    /** The suspended connects and reconnects. */
    var attempts: seq<Attempt>
    var nextSocket: nat
    ghost var closed: set<nat>
    var watched: set<nat>

    ghost function Model(): State
      reads this
    {
      State(client, hostAddr, hostTarget, activeContext, connectGeneration, selectionSignal, abortedSignals, issued,
            reconnectInFlight, attempts, nextSocket, closed, watched)
    }

    constructor ()
      ensures Model() == Initial
    {
      client, hostAddr, hostTarget, activeContext := None, None, None, None;
      connectGeneration, selectionSignal, abortedSignals, issued := 0, 0, {}, {};
      reconnectInFlight, attempts, nextSocket, closed, watched := None, [], 0, {}, {};
    }

    method BeginHostSelection() returns (selection: Selection)
      modifies this
      ensures Model() == Step(old(Model()), Select)
      ensures selection == Selection(connectGeneration, selectionSignal) && selection in issued
    {
      abortedSignals := abortedSignals + {selectionSignal};
      selectionSignal := selectionSignal + 1;
      connectGeneration := connectGeneration + 1;
      selection := Selection(connectGeneration, selectionSignal);
      issued := issued + {selection};
    }

    /** `connectHost` up to its first suspension. */
    method ConnectHost(target: Endpoint, trusted: bool, chosen: Option<Selection>, actionAborted: bool)
      requires chosen.Some? ==> chosen.value in issued
      modifies this
      ensures Model() == Step(old(Model()), Connect(target, trusted, chosen, actionAborted))
    {
      if !trusted {
        return;
      }
      var selection: Selection;
      if chosen.Some? {
        selection := chosen.value;
      } else {
        selection := BeginHostSelection();
      }
      if actionAborted || selection.generation != connectGeneration {
        return;
      }
      attempts := attempts + [Attempt(target, selection.generation, selection.signal, None, false, Opening)];
    }

    method AbortsAction(i: nat)
      modifies this`attempts
      ensures Model() == Step(old(Model()), AbortAction(i))
    {
      if i < |attempts| && attempts[i].origin.None? {
        attempts := attempts[i := attempts[i].(actionAborted := true)];
      }
    }

    method SetPhaseOf(i: nat, phase: Phase)
      requires i < |attempts|
      modifies this`attempts
      ensures Model() == SetPhase(old(Model()), i, phase)
    {
      attempts := attempts[i := attempts[i].(phase := phase)];
    }

    method Close(socket: nat)
      modifies this`closed
      ensures Model() == CloseSocket(old(Model()), socket)
    {
      closed := closed + {socket};
    }

    method IsCancelled(a: Attempt) returns (cancelled: bool)
      ensures cancelled == Cancelled(Model(), a)
    {
      cancelled := a.signal in abortedSignals || a.actionAborted;
    }

    method IsRequestContextCurrent(context: Context) returns (current: bool)
      ensures current == Current(Model(), context)
    {
      current := activeContext == Some(context)
        && (client == Some(context.client) || client == None)
        && connectGeneration == context.generation;
    }

    /** The socket of `openControl` opens. */
    method SocketOpens(i: nat, usb: bool)
      modifies this
      ensures Model() == Step(old(Model()), SocketOpened(i, usb))
    {
      if i >= |attempts| || !attempts[i].phase.Opening? {
        return;
      }
      var socket := nextSocket;
      nextSocket := nextSocket + 1;
      var cancelled := IsCancelled(attempts[i]);
      if !usb && cancelled {
        Close(socket);
        SetPhaseOf(i, Done);
      } else {
        SetPhaseOf(i, Holding(socket, usb));
      }
    }

    /** `openControl` fails, before its socket opened or after. */
    method OpenControlFails(i: nat, lookup: bool)
      modifies this
      ensures Model() == Step(old(Model()), if lookup then CredentialFails(i) else OpenFails(i))
    {
      if i >= |attempts| {
        return;
      }
      if lookup {
        if attempts[i].phase.Holding? && !attempts[i].phase.usb {
          Close(attempts[i].phase.socket);
          SetPhaseOf(i, Done);
        }
      } else if attempts[i].phase.Opening? {
        SetPhaseOf(i, Done);
      }
    }

    /** The new socket replaces the previous client, which is closed. */
    method Publish(i: nat, socket: nat, previous: Option<nat>)
      requires i < |attempts|
      requires previous == match attempts[i].origin case None => client case Some(origin) => Some(origin.client)
      modifies this
      ensures Model() == Install(old(Model()), i, socket)
    {
      var a := attempts[i];
      client, hostAddr := Some(socket), Some(a.target);
      if a.origin.None? {
        hostTarget := Some(a.target);
      }
      activeContext := Some(Context(i, socket, a.target, a.generation));
      if previous.Some? && previous.value != socket {
        Close(previous.value);
      }
      watched := watched + {socket};
      SetPhaseOf(i, Done);
    }

    method MayPublish(a: Attempt) returns (wins: bool)
      ensures wins == Wins(Model(), a)
    {
      if a.origin.None? {
        var cancelled := IsCancelled(a);
        wins := !cancelled && a.generation == connectGeneration;
      } else {
        var current := IsRequestContextCurrent(a.origin.value);
        wins := a.signal !in abortedSignals && current;
      }
    }

    /** The rest of `connectHost` or of a reconnect, once its socket is in hand. */
    method Completes(i: nat)
      requires i < |attempts| && attempts[i].phase.Holding?
      modifies this
      ensures Model() == Finish(old(Model()), i)
    {
      var a, socket := attempts[i], attempts[i].phase.socket;
      var wins := MayPublish(a);
      if !wins {
        Close(socket);
        SetPhaseOf(i, Done);
        return;
      }
      Publish(i, socket, if a.origin.None? then client else Some(a.origin.value.client));
    }

    /** `reconnectHost`: joins the reconnect of this generation, or starts one. */
    method ReconnectHost(origin: Option<Context>) returns (joined: Option<nat>)
      modifies this
      ensures Model() == Step(old(Model()), Reconnect(origin))
      ensures joined.Some? <==> origin.Some? && Current(old(Model()), origin.value)
      ensures joined.Some? ==> reconnectInFlight == Some(InFlight(origin.value.generation, joined.value))
    {
      if origin.None? {
        return None;
      }
      var current := IsRequestContextCurrent(origin.value);
      if !current {
        return None;
      }
      if reconnectInFlight.Some? && reconnectInFlight.value.generation == origin.value.generation {
        return Some(reconnectInFlight.value.attempt);
      }
      var attempt := |attempts|;
      attempts := attempts
        + [Attempt(origin.value.target, origin.value.generation, selectionSignal, origin, false, Opening)];
      reconnectInFlight := Some(InFlight(origin.value.generation, attempt));
      joined := Some(attempt);
    }

    method RetireReconnect(i: nat)
      modifies this`reconnectInFlight
      ensures Model() == Step(old(Model()), Retire(i))
    {
      if reconnectInFlight.Some? && reconnectInFlight.value.attempt == i && i < |attempts| && attempts[i].phase.Done? {
        reconnectInFlight := None;
      }
    }

    method DisconnectHost(scope: Option<Context>) returns (disconnected: bool)
      modifies this
      ensures disconnected <==> (scope.None? || Current(old(Model()), scope.value))
      ensures Model() == if disconnected then DisconnectNow(old(Model())) else old(Model())
    {
      if scope.Some? {
        var current := IsRequestContextCurrent(scope.value);
        if !current {
          return false;
        }
      }
      CloseClient();
      abortedSignals := abortedSignals + {selectionSignal};
      connectGeneration := connectGeneration + 1;
      hostTarget, activeContext, reconnectInFlight := None, None, None;
      disconnected := true;
    }

    method CloseClient()
      modifies this`client, this`closed, this`hostAddr
      ensures client == None && hostAddr == None
      ensures closed == old(closed) + (if old(client).Some? then {old(client).value} else {})
    {
      if client.Some? {
        Close(client.value);
      }
      client, hostAddr := None, None;
    }

    /** A socket closes by itself; only an installed socket has a listener. */
    method SocketEnds(socket: nat)
      modifies this
      ensures Model() == Step(old(Model()), SocketCloses(socket))
    {
      if socket >= nextSocket {
        return;
      }
      Close(socket);
      if socket in watched && client == Some(socket) {
        client, hostAddr := None, None;
      }
    }
  }

  // ------------------------------------------------------------ invariants

  /** A non-null client is the active context's, and the displayed host and the target
      belong to that context. */
  predicate Coherent(s: State) {
    && (s.client.Some? ==> s.context.Some? && s.context.value.client == s.client.value)
    && s.hostAddr == (if s.client.Some? then Some(s.context.value.target) else None)
    && s.hostTarget == (if s.context.Some? then Some(s.context.value.target) else None)
    && (s.context.Some? ==> MadeBy(s, s.context.value))
  }

  /** The context came from a finished attempt. */
  predicate MadeBy(s: State, context: Context) {
    && context.attempt < |s.attempts|
    && s.attempts[context.attempt].phase.Done?
    && context.generation <= s.generation
  }

  /** The abort signals and the generations agree: exactly the selections of older
      generations are aborted. */
  predicate Fenced(s: State) {
    && (forall sel :: sel in s.issued ==>
          && sel.generation <= s.generation && sel.signal <= s.signal
          && (sel.generation == s.generation ==> sel.signal == s.signal && s.signal !in s.aborted)
          && (sel.generation < s.generation ==> sel.signal in s.aborted))
    && (forall n :: n in s.aborted ==> n <= s.signal)
  }

  predicate AttemptFenced(s: State, a: Attempt) {
    && a.generation <= s.generation
    && (a.origin.None? ==> Selection(a.generation, a.signal) in s.issued)
    && (a.origin.Some? ==>
          a.origin.value.generation == a.generation && a.origin.value.target == a.target && MadeBy(s, a.origin.value))
  }

  predicate AttemptsFenced(s: State) {
    forall i :: 0 <= i < |s.attempts| ==> AttemptFenced(s, s.attempts[i])
  }

  predicate Held(s: State, socket: nat) {
    exists i :: 0 <= i < |s.attempts| && s.attempts[i].phase.Holding? && s.attempts[i].phase.socket == socket
  }

  /** A held socket is known, held once, and not the client yet. */
  predicate Owned(s: State) {
    && (forall i :: 0 <= i < |s.attempts| && s.attempts[i].phase.Holding? ==>
          && s.attempts[i].phase.socket < s.nextSocket
          && (s.context.Some? ==> s.attempts[i].phase.socket != s.context.value.client))
    && (forall i, j :: 0 <= i < j < |s.attempts| && s.attempts[i].phase.Holding? && s.attempts[j].phase.Holding? ==>
          s.attempts[i].phase.socket != s.attempts[j].phase.socket)
    && (s.context.Some? ==> s.context.value.client < s.nextSocket)
  }

  /** No socket leaks: one that is neither closed nor the client belongs to an attempt
      that has not finished. */
  predicate NoLeak(s: State) {
    forall n :: 0 <= n < s.nextSocket && n !in s.closed && s.client != Some(n) ==> Held(s, n)
  }

  predicate Live(a: Attempt) {
    !a.phase.Done?
  }

  /** An unfinished reconnect of the current generation is the one in flight. */
  predicate OneReconnect(s: State) {
    && (forall i :: 0 <= i < |s.attempts| && s.attempts[i].origin.Some? && Live(s.attempts[i])
                    && s.attempts[i].generation == s.generation ==>
          s.inFlight == Some(InFlight(s.generation, i)))
    && (s.inFlight.Some? ==> s.inFlight.value.attempt < |s.attempts|)
  }
}

/** The request pipeline of the control connection
    (apps/viewer-expo/src/control.ts): replies carry no id, so they answer requests
    in the order they were admitted, and only the front request has a deadline. */
module ControlChannel {
  import opened Wrappers
  import SecureChannel

  const CONTROL_LINE_LIMIT := 12 * 1024 * 1024
  const HANDSHAKE_LINE_LIMIT := 16 * 1024
  const MAX_PENDING_REQUESTS := 32
  const MAX_PENDING_REQUEST_BYTES := 16 * 1024 * 1024

  datatype ErrorKind = Remote | Timeout | Transport | Unauthorized | Capacity

  datatype Reply = Resolved | Rejected(kind: ErrorKind)

  datatype Pending = Pending(id: nat, bytes: nat, timeoutMs: nat, armed: bool)

  /** One settled request; `answered` tells a processed response from a failure of
      the connection. */
  datatype Settlement = Settlement(id: nat, reply: Reply, answered: bool)

  datatype Channel = Channel(
    pending: seq<Pending>,
    pendingBytes: int,
    terminal: Option<ErrorKind>,
    nextId: nat,
    admitted: seq<nat>,
    settled: seq<Settlement>)

  const Idle := Channel([], 0, None, 1, [], [])

  datatype Event =
    | Issue(bytes: nat, timeoutMs: nat, sealed: bool, writable: bool)
    | Response(wellFormed: bool, reply: Reply)
    | WriteFailed
    | DeadlinePassed(id: nat)
    | SocketError
    | SocketClosed
    | CloseCalled

  /** Bytes on the wire: a sealed request travels as an unpadded base64url string
      inside `{"e":""}`, followed by the delimiter. */
  function WireBytes(sealed: bool, bytes: nat): nat {
    if sealed then ((bytes + SecureChannel.COUNTER_LEN + SecureChannel.TAG_LEN) * 4 + 2) / 3 + 9 else bytes
  }

  /** Why a request is turned away before it is admitted. */
  function Refusal(c: Channel, bytes: nat, sealed: bool): Option<ErrorKind> {
    if c.terminal.Some? then c.terminal
    else if |c.pending| >= MAX_PENDING_REQUESTS then Some(Capacity)
    else if WireBytes(sealed, bytes) > CONTROL_LINE_LIMIT then Some(Capacity)
    else if bytes > MAX_PENDING_REQUEST_BYTES - c.pendingBytes then Some(Capacity)
    else None
  }

  function ArmFront(pending: seq<Pending>): seq<Pending> {
    if pending == [] then [] else pending[0 := pending[0].(armed := true)]
  }

  function AllRejected(pending: seq<Pending>, kind: ErrorKind): seq<Settlement> {
    seq(|pending|, i requires 0 <= i < |pending| => Settlement(pending[i].id, Rejected(kind), false))
  }

  /** Every pending request is rejected and the connection is over. */
  function Retire(c: Channel, kind: ErrorKind): Channel {
    c.(pending := [], pendingBytes := 0, terminal := Some(kind),
       settled := c.settled + AllRejected(c.pending, kind))
  }

  function Admit(c: Channel, bytes: nat, timeoutMs: nat): Channel {
    c.(pending := ArmFront(c.pending + [Pending(c.nextId, bytes, timeoutMs, false)]),
       pendingBytes := c.pendingBytes + bytes,
       nextId := c.nextId + 1,
       admitted := c.admitted + [c.nextId])
  }

  function AnswerFront(c: Channel, reply: Reply): Channel {
    if c.pending == [] then c
    else
      var front := c.pending[0];
      c.(pending := ArmFront(c.pending[1..]),
         pendingBytes := c.pendingBytes - front.bytes,
         settled := c.settled + [Settlement(front.id, reply, true)])
  }

  predicate HasPending(c: Channel, id: nat) {
    exists i :: 0 <= i < |c.pending| && c.pending[i].id == id && c.pending[i].armed
  }

  function Step(c: Channel, e: Event): Channel {
    match e
    case Issue(bytes, timeoutMs, sealed, writable) =>
      // An id is used up by every request that reaches the line and byte limits.
      var refusal := Refusal(c, bytes, sealed);
      if c.terminal.Some? || |c.pending| >= MAX_PENDING_REQUESTS then c
      else if refusal.Some? then c.(nextId := c.nextId + 1)
      else if writable then Admit(c, bytes, timeoutMs)
      else Retire(Admit(c, bytes, timeoutMs), Transport)
    case Response(wellFormed, reply) =>
      if c.terminal.Some? then c
      else if !wellFormed then Retire(c, Transport)
      else AnswerFront(c, reply)
    case WriteFailed => if c.terminal.Some? then c else Retire(c, Transport)
    case DeadlinePassed(id) => if HasPending(c, id) then Retire(c, Timeout) else c
    case SocketError => Retire(c, Transport)
    case SocketClosed => Retire(c, Transport)
    case CloseCalled => c.(terminal := Some(Transport))
  }

  function Run(c: Channel, events: seq<Event>): Channel
    decreases events
  {
    if events == [] then c else Run(Step(c, events[0]), events[1..])
  }

  // ---------------------------------------------- the connection, in place

  class Connection {
    var pending: seq<Pending>
    var pendingBytes: int
    var terminalError: Option<ErrorKind>
    var nextId: nat
    ghost var admitted: seq<nat>
    ghost var settled: seq<Settlement>

    ghost function Model(): Channel
      reads this
    {
      Channel(pending, pendingBytes, terminalError, nextId, admitted, settled)
    }

    constructor ()
      ensures Model() == Idle
    {
      pending, pendingBytes, terminalError, nextId := [], 0, None, 1;
      admitted, settled := [], [];
    }

    method Settle(id: nat, reply: Reply, answered: bool)
      modifies this`settled
      ensures settled == old(settled) + [Settlement(id, reply, answered)]
    {
      settled := settled + [Settlement(id, reply, answered)];
    }

    method Fail(kind: ErrorKind)
      modifies this
      ensures Model() == Retire(old(Model()), kind)
    {
      terminalError := Some(kind);
      for n := 0 to |pending|
        invariant pending == old(pending) && pendingBytes == old(pendingBytes) && terminalError == Some(kind)
        invariant nextId == old(nextId) && admitted == old(admitted)
        invariant settled == old(settled) + AllRejected(pending[..n], kind)
      {
        Settle(pending[n].id, Rejected(kind), false);
        assert AllRejected(pending[..n + 1], kind)
            == AllRejected(pending[..n], kind) + [Settlement(pending[n].id, Rejected(kind), false)];
      }
      assert pending[..|pending|] == pending;
      pending, pendingBytes := [], 0;
    }

    method ArmFrontDeadline()
      modifies this`pending
      ensures pending == ArmFront(old(pending))
    {
      if pending != [] && !pending[0].armed {
        pending := pending[0 := pending[0].(armed := true)];
      }
    }

    /** `request` once its token is known. Answers with the admitted id, or the reason
        it was turned away; a write that throws retires the whole connection. */
    method Request(bytes: nat, timeoutMs: nat, sealed: bool, writable: bool) returns (r: Result<nat, ErrorKind>)
      modifies this
      ensures Model() == Step(old(Model()), Issue(bytes, timeoutMs, sealed, writable))
      ensures r == if Refusal(old(Model()), bytes, sealed).None? then Ok(old(nextId))
                   else Err(Refusal(old(Model()), bytes, sealed).value)
    {
      if terminalError.Some? {
        return Err(terminalError.value);
      }
      if |pending| >= MAX_PENDING_REQUESTS {
        return Err(Capacity);
      }
      var id := nextId;
      nextId := nextId + 1;
      if WireBytes(sealed, bytes) > CONTROL_LINE_LIMIT {
        return Err(Capacity);
      }
      if bytes > MAX_PENDING_REQUEST_BYTES - pendingBytes {
        return Err(Capacity);
      }
      pending := pending + [Pending(id, bytes, timeoutMs, false)];
      admitted := admitted + [id];
      pendingBytes := pendingBytes + bytes;
      ArmFrontDeadline();
      if !writable {
        Fail(Transport);
      }
      r := Ok(id);
    }

    /** One decoded response line, delivered while the connection is live. */
    method HandleResponse(wellFormed: bool, reply: Reply)
      modifies this
      ensures Model() == Step(old(Model()), Response(wellFormed, reply))
    {
      if terminalError.Some? {
        return;
      }
      if !wellFormed {
        Fail(Transport);
        return;
      }
      if pending == [] {
        return;
      }
      var front := pending[0];
      pending := pending[1..];
      pendingBytes := pendingBytes - front.bytes;
      ArmFrontDeadline();
      Settle(front.id, reply, true);
    }

    method WriteCallbackFailed()
      modifies this
      ensures Model() == Step(old(Model()), WriteFailed)
    {
      if terminalError.None? {
        Fail(Transport);
      }
    }

    /** The timer of this request fires; it does nothing when the request is gone. */
    method DeadlineFires(id: nat)
      modifies this
      ensures Model() == Step(old(Model()), DeadlinePassed(id))
    {
      var found := false;
      for n := 0 to |pending|
        invariant Model() == old(Model())
        invariant found <==> exists i :: 0 <= i < n && pending[i].id == id && pending[i].armed
      {
        if pending[n].id == id && pending[n].armed {
          found := true;
        }
      }
      if found {
        Fail(Timeout);
      }
    }

    method SocketEnds(closed: bool)
      modifies this
      ensures Model() == Step(old(Model()), if closed then SocketClosed else SocketError)
    {
      Fail(Transport);
    }

    method Close()
      modifies this`terminalError
      ensures Model() == Step(old(Model()), CloseCalled)
    {
      terminalError := Some(Transport);
    }
  }

  // ------------------------------------------------- every run of a socket

  function SumBytes(pending: seq<Pending>): nat {
    if pending == [] then 0 else pending[0].bytes + SumBytes(pending[1..])
  }

  lemma {:induction false} SumAppend(pending: seq<Pending>, p: Pending)
    ensures SumBytes(pending + [p]) == SumBytes(pending) + p.bytes
  {
    if pending != [] {
      assert (pending + [p])[1..] == pending[1..] + [p];
      SumAppend(pending[1..], p);
    }
  }

  lemma ArmingKeepsSum(pending: seq<Pending>)
    ensures SumBytes(ArmFront(pending)) == SumBytes(pending)
  {
    if pending != [] {
      assert ArmFront(pending)[1..] == pending[1..];
    }
  }

  predicate Ordered(c: Channel) {
    // Admitted requests are the settled ones followed by the pending ones.
    && |c.admitted| == |c.settled| + |c.pending|
    && (forall i :: 0 <= i < |c.settled| ==> c.admitted[i] == c.settled[i].id)
    && (forall i :: 0 <= i < |c.pending| ==> c.admitted[|c.settled| + i] == c.pending[i].id)
    && (forall i, j :: 0 <= i < j < |c.admitted| ==> c.admitted[i] < c.admitted[j])
    && (forall i :: 0 <= i < |c.admitted| ==> c.admitted[i] < c.nextId)
  }

  predicate Accounted(c: Channel) {
    c.pendingBytes == SumBytes(c.pending) <= MAX_PENDING_REQUEST_BYTES && |c.pending| <= MAX_PENDING_REQUESTS
  }

  predicate FrontDeadline(c: Channel) {
    forall i :: 0 <= i < |c.pending| ==> (c.pending[i].armed <==> i == 0)
  }

  /** Responses come first: once the connection failed nothing is answered or
      pending any more. */
  predicate AnswersFirst(c: Channel) {
    forall i :: 0 <= i < |c.settled| && !c.settled[i].answered ==>
      c.terminal.Some? && c.pending == [] && forall j :: i < j < |c.settled| ==> !c.settled[j].answered
  }

  predicate Healthy(c: Channel) {
    Ordered(c) && Accounted(c) && FrontDeadline(c) && AnswersFirst(c)
  }

  lemma AdmitKeepsHealthy(c: Channel, bytes: nat, timeoutMs: nat, sealed: bool)
    requires Healthy(c) && Refusal(c, bytes, sealed).None?
    ensures Healthy(Admit(c, bytes, timeoutMs))
  {
    var p := Pending(c.nextId, bytes, timeoutMs, false);
    SumAppend(c.pending, p);
    ArmingKeepsSum(c.pending + [p]);
  }

  lemma AnswerKeepsAccounted(c: Channel, reply: Reply)
    requires Accounted(c)
    ensures Accounted(AnswerFront(c, reply))
  {
    if c.pending != [] {
      ArmingKeepsSum(c.pending[1..]);
    }
  }

  lemma AnswerKeepsHealthy(c: Channel, reply: Reply)
    requires Healthy(c) && c.terminal.None?
    ensures Healthy(AnswerFront(c, reply))
  {
    AnswerKeepsAccounted(c, reply);
    assert FrontDeadline(AnswerFront(c, reply)) && AnswersFirst(AnswerFront(c, reply)) by {
      assert AnswerFront(c, reply).settled[..|c.settled|] == c.settled;
    }
  }

  lemma RetireKeepsHealthy(c: Channel, kind: ErrorKind)
    requires Healthy(c)
    ensures Healthy(Retire(c, kind))
  {
  }

  lemma StepKeepsHealthy(c: Channel, e: Event)
    requires Healthy(c)
    ensures Healthy(Step(c, e))
  {
    match e
    case Issue(bytes, timeoutMs, sealed, writable) => IssueKeepsHealthy(c, e);
    case Response(wellFormed, reply) => ResponseKeepsHealthy(c, e);
    case DeadlinePassed(id) => RetireKeepsHealthy(c, Timeout);
    case CloseCalled =>
    case _ => RetireKeepsHealthy(c, Transport);
  }

  lemma IssueKeepsHealthy(c: Channel, e: Event)
    requires Healthy(c) && e.Issue?
    ensures Healthy(Step(c, e))
  {
    if Refusal(c, e.bytes, e.sealed).None? {
      AdmitKeepsHealthy(c, e.bytes, e.timeoutMs, e.sealed);
      RetireKeepsHealthy(Admit(c, e.bytes, e.timeoutMs), Transport);
    }
  }

  lemma ResponseKeepsHealthy(c: Channel, e: Event)
    requires Healthy(c) && e.Response?
    ensures Healthy(Step(c, e))
  {
    if c.terminal.None? {
      AnswerKeepsHealthy(c, e.reply);
      RetireKeepsHealthy(c, Transport);
    }
  }

  /** In every run the byte count equals the sum over the pending requests, both
      limits hold, and exactly the front request has an armed deadline. */
  lemma {:induction false} RunKeepsHealthy(c: Channel, events: seq<Event>)
    requires Healthy(c)
    ensures Healthy(Run(c, events))
    decreases events
  {
    if events != [] {
      StepKeepsHealthy(c, events[0]);
      RunKeepsHealthy(Step(c, events[0]), events[1..]);
    }
  }

  /** Every admitted request is settled at most once, in admission order; whatever is
      still pending has not been settled, and answers precede failures. */
  lemma SettledAtMostOnceInOrder(events: seq<Event>)
    ensures var c := Run(Idle, events);
            && |c.settled| + |c.pending| == |c.admitted|
            && (forall k :: 0 <= k < |c.settled| ==> c.settled[k].id == c.admitted[k])
            && (forall i, j :: 0 <= i < j < |c.settled| ==> c.settled[i].id != c.settled[j].id)
            && (forall i, k :: 0 <= i < |c.pending| && 0 <= k < |c.settled| ==> c.pending[i].id != c.settled[k].id)
  {
    RunKeepsHealthy(Idle, events);
    var c := Run(Idle, events);
    forall i, k | 0 <= i < |c.pending| && 0 <= k < |c.settled|
      ensures c.pending[i].id != c.settled[k].id
    {
      assert c.admitted[k] < c.admitted[|c.settled| + i];
    }
    forall i, j | 0 <= i < j < |c.settled|
      ensures c.settled[i].id != c.settled[j].id
    {
      assert c.admitted[i] < c.admitted[j];
    }
  }

  predicate Processes(c: Channel, e: Event) {
    e.Response? && c.terminal.None? && e.wellFormed && c.pending != []
  }

  /** The responses that reach a pending request, in order of arrival. */
  function Processed(c: Channel, events: seq<Event>): seq<Reply>
    decreases events
  {
    if events == [] then []
    else ReplyOf(c, events[0]) + Processed(Step(c, events[0]), events[1..])
  }

  lemma StepFails(c: Channel, e: Event)
    requires !Processes(c, e)
    ensures c.settled <= Step(c, e).settled
    ensures Step(c, e).settled == c.settled || Step(c, e).terminal.Some?
    ensures forall k :: |c.settled| <= k < |Step(c, e).settled| ==> !Step(c, e).settled[k].answered
  {
  }

  lemma {:induction false} RunOnlyAppends(c: Channel, events: seq<Event>)
    ensures c.settled <= Run(c, events).settled
    ensures c.terminal.Some? ==> Run(c, events).terminal.Some? && Processed(c, events) == []
    decreases events
  {
    if events != [] {
      RunOnlyAppends(Step(c, events[0]), events[1..]);
    }
  }

  /** `after` extends `before` by answers carrying `replies`, then only by failures. */
  ghost predicate Appended(before: seq<Settlement>, replies: seq<Reply>, after: seq<Settlement>) {
    && |before| + |replies| <= |after|
    && (forall k :: 0 <= k < |before| ==> after[k] == before[k])
    && (forall k :: |before| <= k < |before| + |replies| ==>
          after[k].answered && after[k].reply == replies[k - |before|])
    && (forall k :: |before| + |replies| <= k < |after| ==> !after[k].answered)
  }

  function ReplyOf(c: Channel, e: Event): seq<Reply> {
    if Processes(c, e) then [e.reply] else []
  }

  lemma StepAppends(c: Channel, e: Event)
    ensures Appended(c.settled, ReplyOf(c, e), Step(c, e).settled)
    ensures |Step(c, e).settled| == |c.settled| + |ReplyOf(c, e)| || Step(c, e).terminal.Some?
  {
    if !Processes(c, e) {
      StepFails(c, e);
    }
  }

  lemma {:induction false} AnswersAreTheProcessedResponses(c: Channel, events: seq<Event>)
    ensures Appended(c.settled, Processed(c, events), Run(c, events).settled)
    decreases events
  {
    if events != [] {
      var d, rest := Step(c, events[0]), events[1..];
      StepAppends(c, events[0]);
      AnswersAreTheProcessedResponses(d, rest);
      RunOnlyAppends(d, rest);
    }
  }

  /** The k-th response processed answers the k-th admitted request, with that very
      reply; every later settlement is a failure of the connection. */
  lemma ResponsesAnswerInOrder(events: seq<Event>)
    ensures var c, replies := Run(Idle, events), Processed(Idle, events);
            && |replies| <= |c.settled| <= |c.admitted|
            && (forall k :: 0 <= k < |replies| ==> c.settled[k] == Settlement(c.admitted[k], replies[k], true))
            && (forall k :: |replies| <= k < |c.settled| ==> c.settled[k].id == c.admitted[k] && !c.settled[k].answered)
  {
    var c, replies := Run(Idle, events), Processed(Idle, events);
    AnswersAreTheProcessedResponses(Idle, events);
    SettledAtMostOnceInOrder(events);
    AppendedToNothing(replies, c.settled);
  }

  lemma AppendedToNothing(replies: seq<Reply>, after: seq<Settlement>)
    requires Appended([], replies, after)
    ensures |replies| <= |after|
    ensures forall k :: 0 <= k < |replies| ==> after[k].answered && after[k].reply == replies[k]
    ensures forall k :: |replies| <= k < |after| ==> !after[k].answered
  {
    forall k | 0 <= k < |replies|
      ensures after[k].answered && after[k].reply == replies[k]
    {
      assert after[k].reply == replies[k - 0];
    }
  }

  lemma {:induction false} ClosedStaysEmpty(c: Channel, events: seq<Event>)
    requires c.terminal.Some? && c.pending == []
    ensures Run(c, events).terminal.Some? && Run(c, events).pending == []
    ensures Run(c, events).admitted == c.admitted
    decreases events
  {
    if events != [] {
      ClosedStaysEmpty(Step(c, events[0]), events[1..]);
    }
  }

  lemma {:induction false} RunAppend(c: Channel, before: seq<Event>, after: seq<Event>)
    ensures Run(c, before + after) == Run(Run(c, before), after)
    decreases before
  {
    if before == [] {
      assert before + after == after;
    } else {
      assert (before + after)[1..] == before[1..] + after;
      RunAppend(Step(c, before[0]), before[1..], after);
    }
  }

  /** After the socket's close handler nothing is pending, nothing is admitted any
      more, and every request ever admitted has been settled. */
  lemma NothingPendingAfterClose(before: seq<Event>, after: seq<Event>)
    ensures var c := Run(Idle, before + [SocketClosed] + after);
            && c.pending == [] && c.pendingBytes == 0
            && c.admitted == Run(Idle, before).admitted
            && |c.settled| == |c.admitted|
  {
    RunAppend(Idle, before + [SocketClosed], after);
    RunAppend(Idle, before, [SocketClosed]);
    ClosedStaysEmpty(Run(Idle, before + [SocketClosed]), after);
    RunKeepsHealthy(Idle, before + [SocketClosed] + after);
  }

  /** The size that admission charges for a sealed request is exactly the length of its
      sealed line with the delimiter. */
  lemma AdmissionChargesTheSealedLine(a: SecureChannel.Aead, counter: nat, payload: seq<SecureChannel.byte>)
    requires SecureChannel.Correct(a)
    ensures WireBytes(true, |payload|) == |SecureChannel.SealedLine(SecureChannel.Frame(a, counter, payload)) + "\n"|
  {
    SecureChannel.EncodingIsUrlSafe(SecureChannel.Frame(a, counter, payload));
    assert |SecureChannel.Frame(a, counter, payload)| == SecureChannel.COUNTER_LEN + |payload| + SecureChannel.TAG_LEN;
  }

  // ------------------------------------------- what each event does, in fields

  /** Every pending request was rejected with this kind, in order, and nothing is left. */
  predicate RejectedAll(c: Channel, d: Channel, kind: ErrorKind) {
    && d.pending == [] && d.pendingBytes == 0 && d.terminal == Some(kind)
    && |d.settled| == |c.settled| + |c.pending|
    && (forall k :: 0 <= k < |c.settled| ==> d.settled[k] == c.settled[k])
    && (forall k :: 0 <= k < |c.pending| ==>
          d.settled[|c.settled| + k] == Settlement(c.pending[k].id, Rejected(kind), false))
    && d.admitted == c.admitted
  }

  /** The deadline of the front request retires the connection with a time-out; any other
      deadline does nothing. */
  lemma FrontDeadlineRetires(c: Channel, id: nat)
    requires Healthy(c)
    ensures var d := Step(c, DeadlinePassed(id));
            if c.pending != [] && c.pending[0].id == id then RejectedAll(c, d, Timeout) else d == c
  {
    if c.pending != [] && c.pending[0].id == id {
      assert HasPending(c, id);
    }
  }

  /** A socket that fails or closes, and a write that fails while the connection is live,
      reject everything pending. */
  lemma FailuresRejectEverything(c: Channel)
    ensures RejectedAll(c, Step(c, SocketError), Transport) && RejectedAll(c, Step(c, SocketClosed), Transport)
    ensures c.terminal == None ==> RejectedAll(c, Step(c, WriteFailed), Transport)
    ensures c.terminal == None ==> forall reply :: RejectedAll(c, Step(c, Response(false, reply)), Transport)
    ensures var d := Step(c, CloseCalled);
            d.terminal == Some(Transport) && d.pending == c.pending && d.settled == c.settled
  {
  }

  /** A well-formed response settles the front request with its reply, frees its bytes,
      and arms the next one with that request's own time limit. */
  lemma ResponseSettlesTheFront(c: Channel, reply: Reply)
    requires Healthy(c) && c.terminal == None && c.pending != []
    ensures var d := Step(c, Response(true, reply));
            && d.settled == c.settled + [Settlement(c.pending[0].id, reply, true)]
            && |d.pending| == |c.pending| - 1 && d.terminal == None && d.admitted == c.admitted
            && (forall k :: 0 <= k < |d.pending| ==>
                  && d.pending[k].id == c.pending[k + 1].id && d.pending[k].timeoutMs == c.pending[k + 1].timeoutMs
                  && d.pending[k].bytes == c.pending[k + 1].bytes && (d.pending[k].armed <==> k == 0))
            && d.pendingBytes == c.pendingBytes - c.pending[0].bytes
  {
    AnswerKeepsHealthy(c, reply);
  }

  /** A request is admitted if and only if the connection is live, fewer than 32 requests
      are pending, its line is within twelve megabytes and the pending bytes stay within
      sixteen. It then goes behind the others with its own size and time limit; only a
      front request is armed. */
  lemma AdmittedIff(c: Channel, bytes: nat, timeoutMs: nat, sealed: bool)
    requires Healthy(c)
    ensures var d := Step(c, Issue(bytes, timeoutMs, sealed, true));
            var wire := if sealed then ((bytes + 24) * 4 + 2) / 3 + 9 else bytes;
            if && c.terminal == None && |c.pending| < 32 && wire <= 12_582_912
               && c.pendingBytes + bytes <= 16_777_216
            then && |d.pending| == |c.pending| + 1
                 && d.pending[|c.pending|] == Pending(c.nextId, bytes, timeoutMs, c.pending == [])
                 && (forall k :: 0 <= k < |c.pending| ==> d.pending[k] == c.pending[k])
                 && d.pendingBytes == c.pendingBytes + bytes && d.admitted == c.admitted + [c.nextId]
                 && d.terminal == None && d.settled == c.settled
            else d.pending == c.pending && d.admitted == c.admitted && d.settled == c.settled && d.terminal == c.terminal
  {
  }

  /** A request whose write throws is admitted and then rejected with everything else. */
  lemma FailedWriteRejectsEverything(c: Channel, bytes: nat, timeoutMs: nat, sealed: bool)
    requires c.terminal == None && Step(c, Issue(bytes, timeoutMs, sealed, true)).admitted == c.admitted + [c.nextId]
    ensures RejectedAll(Step(c, Issue(bytes, timeoutMs, sealed, true)), Step(c, Issue(bytes, timeoutMs, sealed, false)), Transport)
  {
  }
}

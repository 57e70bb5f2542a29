/** What every run of the preference controllers of one key keeps. */
module PreferencesHistory {
  import opened Preferences

  // --------------------------------------------------------------- invariant

  /** A queued operation fits its controller: a load is awaited; a drain is being
      written, and unless newer edits came it carries the shown value. */
  ghost predicate OpFits<T>(c: Controller<T>, op: Op<T>) {
    if op.LoadOp? then c.loading
    else
      && c.writing && c.hydrated && !c.paused && op.revision <= c.revision
      && (op.revision == c.revision ==> op.value == c.value)
  }

  ghost predicate OpsFit<T>(w: World<T>) {
    forall k :: 0 <= k < |w.queue| ==>
      w.queue[k].owner < |w.controllers| && OpFits(w.controllers[w.queue[k].owner], w.queue[k])
  }

  /** Operations are queued in the order of their controllers, and of one controller at
      most a drain followed by a load. */
  ghost predicate QueueOrdered<T>(w: World<T>) {
    forall k, l :: 0 <= k < l < |w.queue| ==>
      && w.queue[k].owner <= w.queue[l].owner
      && (w.queue[k].owner == w.queue[l].owner ==> w.queue[k].DrainOp? && w.queue[l].LoadOp?)
  }

  ghost predicate HasDrain<T>(queue: seq<Op<T>>, id: nat) {
    exists k :: 0 <= k < |queue| && queue[k].DrainOp? && queue[k].owner == id
  }

  ghost predicate WritersDrain<T>(w: World<T>) {
    forall i :: 0 <= i < |w.controllers| && w.controllers[i].writing ==> HasDrain(w.queue, i)
  }

  /** Only the last controller may be live, and once a controller was hydrated nothing of
      its predecessors is queued. */
  ghost predicate HandedOver<T>(w: World<T>) {
    && (forall i :: 0 <= i < |w.controllers| - 1 ==> w.controllers[i].disposed)
    && (forall i, k :: 0 <= i < |w.controllers| && w.controllers[i].everHydrated && 0 <= k < |w.queue| ==>
          i <= w.queue[k].owner)
    && (forall i :: 0 <= i < |w.controllers| && w.controllers[i].hydrated ==> w.controllers[i].everHydrated)
  }

  /** The last controller that ever loaded; it owns the stored value. */
  ghost predicate LastLoaded<T>(w: World<T>, i: int) {
    && 0 <= i < |w.controllers| && w.controllers[i].everHydrated
    && forall j :: i < j < |w.controllers| ==> !w.controllers[j].everHydrated
  }

  /** No edit of this controller is waiting to be saved. */
  ghost predicate Settled<T>(c: Controller<T>) {
    c.hydrated && !c.paused && !c.loading && !c.writing
  }

  ghost predicate StoreIsCurrent<T>(w: World<T>) {
    forall i :: LastLoaded(w, i) && Settled(w.controllers[i]) ==> w.store == w.controllers[i].value
  }

  ghost predicate ReadyIsSettled<T>(w: World<T>) {
    forall i :: 0 <= i < |w.controllers| && w.controllers[i].status == Ready ==>
      && w.controllers[i].everHydrated && !w.controllers[i].writing
      && (!w.controllers[i].loading ==> Settled(w.controllers[i]) || w.controllers[i].disposed)
  }

  ghost predicate Orderly<T>(w: World<T>) {
    OpsFit(w) && QueueOrdered(w) && WritersDrain(w) && HandedOver(w) && StoreIsCurrent(w) && ReadyIsSettled(w)
  }

  // --------------------------------------------------- calls of a controller

  /** What every call leaves true of its controller. */
  ghost predicate GoodTurn<T>(c: Controller<T>, id: nat, t: Turn<T>) {
    && (c.disposed ==> t == Turn(c, []))
    && (c.loading ==> t.c.loading)
    && t.c.hydrated == c.hydrated && t.c.everHydrated == c.everHydrated
    && (c.writing ==> t.c.writing) && (c.writing && !c.paused ==> !t.c.paused)
    && t.c.revision >= c.revision && (t.c.revision == c.revision ==> t.c.value == c.value)
    && (|| t.ops == []
        || (t.ops == [LoadOp(id)] && !c.loading && t.c.loading)
        || (t.ops == [DrainOp(id, t.c.revision, t.c.value)] && !c.loading && !c.writing && t.c.writing
            && c.hydrated && !t.c.paused))
    && (t.c.writing && !c.writing ==> |t.ops| == 1 && t.ops[0].DrainOp?)
    && (Settled(t.c) ==> Settled(c) && t.c.value == c.value)
    && (t.c.status == Ready && !t.c.loading && !t.c.disposed ==>
          Settled(t.c) || (c.status == Ready && !c.loading && !Settled(c)))
    && (t.c.status == Ready ==> c.status == Ready && (t.c.writing ==> c.writing))
  }

  lemma CallIsGood<T>(w: World<T>, e: Event<T>, id: nat)
    requires id < |w.controllers|
    ensures GoodTurn(w.controllers[id], id, Call(w, e, id))
  {
  }

  lemma TurnKeepsOpsFit<T>(w: World<T>, id: nat, t: Turn<T>)
    requires OpsFit(w) && id < |w.controllers| && GoodTurn(w.controllers[id], id, t)
    ensures OpsFit(Apply(w, id, t))
  {
  }

  lemma TurnKeepsQueueOrdered<T>(w: World<T>, id: nat, t: Turn<T>)
    requires OpsFit(w) && QueueOrdered(w) && HandedOver(w) && id < |w.controllers| && GoodTurn(w.controllers[id], id, t)
    ensures QueueOrdered(Apply(w, id, t))
  {
  }

  lemma TurnKeepsWritersDrain<T>(w: World<T>, id: nat, t: Turn<T>)
    requires WritersDrain(w) && id < |w.controllers| && GoodTurn(w.controllers[id], id, t)
    ensures WritersDrain(Apply(w, id, t))
  {
    var v := Apply(w, id, t);
    forall i | 0 <= i < |v.controllers| && v.controllers[i].writing
      ensures HasDrain(v.queue, i)
    {
      if w.controllers[i].writing {
        var k :| 0 <= k < |w.queue| && w.queue[k].DrainOp? && w.queue[k].owner == i;
        assert v.queue[k] == w.queue[k];
      } else {
        assert v.queue[|w.queue|] == t.ops[0];
      }
    }
  }

  lemma TurnKeepsHandedOver<T>(w: World<T>, id: nat, t: Turn<T>)
    requires HandedOver(w) && id < |w.controllers| && GoodTurn(w.controllers[id], id, t)
    ensures HandedOver(Apply(w, id, t))
  {
  }

  lemma TurnKeepsStore<T>(w: World<T>, id: nat, t: Turn<T>)
    requires StoreIsCurrent(w) && ReadyIsSettled(w) && id < |w.controllers| && GoodTurn(w.controllers[id], id, t)
    ensures StoreIsCurrent(Apply(w, id, t)) && ReadyIsSettled(Apply(w, id, t))
  {
    var v := Apply(w, id, t);
    forall i | LastLoaded(v, i)
      ensures LastLoaded(w, i)
    {
      assert forall j :: i < j < |w.controllers| ==> v.controllers[j].everHydrated == w.controllers[j].everHydrated;
    }
  }

  // ------------------------------------------------- operations of the queue

  lemma {:induction false} DrainInTail<T>(queue: seq<Op<T>>, id: nat)
    requires HasDrain(queue, id) && queue != [] && !(queue[0].DrainOp? && queue[0].owner == id)
    ensures HasDrain(queue[1..], id)
  {
    var k :| 0 <= k < |queue| && queue[k].DrainOp? && queue[k].owner == id;
    assert queue[1..][k - 1] == queue[k];
  }

  /** Removing the head operation: nothing else of its owner but a load is left. */
  lemma PopFacts<T>(w: World<T>)
    requires OpsFit(w) && QueueOrdered(w) && w.queue != []
    ensures QueueOrdered(w.(queue := w.queue[1..]))
    ensures forall k :: 0 <= k < |w.queue[1..]| ==>
      && w.queue[1..][k].owner < |w.controllers|
      && OpFits(w.controllers[w.queue[1..][k].owner], w.queue[1..][k])
      && w.queue[0].owner <= w.queue[1..][k].owner
      && (w.queue[1..][k].owner == w.queue[0].owner ==> w.queue[0].DrainOp? && w.queue[1..][k].LoadOp?)
  {
    forall k | 0 <= k < |w.queue[1..]|
      ensures w.queue[1..][k] == w.queue[k + 1]
    {
    }
  }

  lemma PopKeepsWriters<T>(w: World<T>, c: Controller<T>)
    requires WritersDrain(w) && w.queue != [] && w.queue[0].owner < |w.controllers|
    requires w.queue[0].DrainOp? ==> !c.writing
    requires c.writing ==> w.controllers[w.queue[0].owner].writing
    ensures WritersDrain(w.(queue := w.queue[1..], controllers := w.controllers[w.queue[0].owner := c]))
  {
    var v := w.(queue := w.queue[1..], controllers := w.controllers[w.queue[0].owner := c]);
    forall i | 0 <= i < |v.controllers| && v.controllers[i].writing
      ensures HasDrain(v.queue, i)
    {
      DrainInTail(w.queue, i);
    }
  }

  /** Only one controller writes at a time: the owner of the head drain. */
  lemma OneWriter<T>(w: World<T>, i: int)
    requires OpsFit(w) && QueueOrdered(w) && WritersDrain(w) && HandedOver(w) && HeadIs(w, true)
    requires 0 <= i < |w.controllers| && w.controllers[i].writing
    ensures i == w.queue[0].owner
  {
    var k :| 0 <= k < |w.queue| && w.queue[k].DrainOp? && w.queue[k].owner == i;
    assert OpFits(w.controllers[w.queue[0].owner], w.queue[0]) && OpFits(w.controllers[i], w.queue[k]);
  }

  lemma SaveDoneKeepsQueue<T>(w: World<T>)
    requires OpsFit(w) && QueueOrdered(w) && WritersDrain(w) && HandedOver(w) && HeadIs(w, true)
    ensures var v := SaveDone(w); OpsFit(v) && QueueOrdered(v) && WritersDrain(v) && HandedOver(v)
  {
    var op := w.queue[0];
    var c := w.controllers[op.owner];
    PopFacts(w);
    if c.revision == op.revision {
      PopKeepsWriters(w, Saved(c));
    } else {
      var v := SaveDone(w);
      assert forall k :: 0 < k < |v.queue| ==> v.queue[k] == w.queue[1..][k - 1];
      assert v.queue[0].DrainOp? && v.queue[0].owner == op.owner;
      forall i | 0 <= i < |v.controllers| && v.controllers[i].writing
        ensures HasDrain(v.queue, i)
      {
        OneWriter(w, i);
      }
    }
  }

  lemma SaveLostKeepsQueue<T>(w: World<T>, wrote: bool)
    requires OpsFit(w) && QueueOrdered(w) && WritersDrain(w) && HandedOver(w) && HeadIs(w, true)
    ensures var v := SaveLost(w, wrote); OpsFit(v) && QueueOrdered(v) && WritersDrain(v) && HandedOver(v)
  {
    PopFacts(w);
    PopKeepsWriters(w, SaveFailed(w.controllers[w.queue[0].owner]));
  }

  /** The owner of the head drain is the last controller that loaded, so only its own
      values reach the store. */
  lemma DrainerLoadedLast<T>(w: World<T>, i: int)
    requires OpsFit(w) && HandedOver(w) && HeadIs(w, true) && LastLoaded(w, i)
    ensures i == w.queue[0].owner
  {
    assert OpFits(w.controllers[w.queue[0].owner], w.queue[0]);
  }

  lemma SaveKeepsStore<T>(w: World<T>, wrote: bool)
    requires Orderly(w) && HeadIs(w, true)
    ensures StoreIsCurrent(SaveDone(w)) && ReadyIsSettled(SaveDone(w))
    ensures StoreIsCurrent(SaveLost(w, wrote)) && ReadyIsSettled(SaveLost(w, wrote))
  {
    var op := w.queue[0];
    assert OpFits(w.controllers[op.owner], op);
    forall i | LastLoaded(SaveDone(w), i) || LastLoaded(SaveLost(w, wrote), i)
      ensures LastLoaded(w, i) && i == op.owner
    {
      SameHistory(w, SaveDone(w), i);
      SameHistory(w, SaveLost(w, wrote), i);
      DrainerLoadedLast(w, i);
    }
  }

  lemma SameHistory<T>(w: World<T>, v: World<T>, i: int)
    requires |w.controllers| == |v.controllers|
    requires forall j :: 0 <= j < |w.controllers| ==> v.controllers[j].everHydrated == w.controllers[j].everHydrated
    ensures LastLoaded(v, i) <==> LastLoaded(w, i)
  {
  }

  // ------------------------------------------------------ loads that return

  /** When a load is at the head nobody is writing: drains were queued before. */
  lemma NobodyWrites<T>(w: World<T>, i: int)
    requires OpsFit(w) && QueueOrdered(w) && WritersDrain(w) && HandedOver(w) && HeadIs(w, false)
    requires 0 <= i < |w.controllers|
    ensures !w.controllers[i].writing
  {
    forall k | 0 <= k < |w.queue|
      ensures w.queue[k].LoadOp? || w.queue[k].owner != i
    {
      assert OpFits(w.controllers[w.queue[k].owner], w.queue[k]);
    }
  }

  lemma LoadLostKeepsOrderly<T>(w: World<T>)
    requires Orderly(w) && HeadIs(w, false)
    ensures Orderly(LoadLost(w))
  {
    var id := w.queue[0].owner;
    PopFacts(w);
    NobodyWrites(w, id);
    PopKeepsWriters(w, LoadFailed(w.controllers[id]));
    assert OpFits(w.controllers[id], w.queue[0]);
    assert StoreIsCurrent(LoadLost(w)) by {
      forall i | LastLoaded(LoadLost(w), i)
        ensures LastLoaded(w, i)
      {
        SameHistory(w, LoadLost(w), i);
      }
    }
  }

  lemma LoadDoneKeepsQueue<T>(w: World<T>)
    requires Orderly(w) && HeadIs(w, false)
    ensures var v := LoadDone(w); OpsFit(v) && QueueOrdered(v) && WritersDrain(v)
  {
    var id := w.queue[0].owner;
    var t := Loaded(id, w.controllers[id], w.store);
    PopFacts(w);
    NobodyWrites(w, id);
    var popped := w.(queue := w.queue[1..]);
    var v := LoadDone(w);
    assert v == Apply(popped, id, t);
    forall i | 0 <= i < |v.controllers| && v.controllers[i].writing
      ensures HasDrain(v.queue, i)
    {
      NobodyWrites(w, i);
      assert v.queue[|popped.queue|] == t.ops[0];
    }
  }

  lemma LoadDoneKeepsStore<T>(w: World<T>)
    requires Orderly(w) && HeadIs(w, false)
    ensures var v := LoadDone(w); HandedOver(v) && StoreIsCurrent(v) && ReadyIsSettled(v)
  {
    var id := w.queue[0].owner;
    var v := LoadDone(w);
    PopFacts(w);
    NobodyWrites(w, id);
    assert OpFits(w.controllers[id], w.queue[0]);
    if w.controllers[id].disposed {
      forall i | LastLoaded(v, i)
        ensures LastLoaded(w, i)
      {
        SameHistory(w, v, i);
      }
    } else {
      assert id == |w.controllers| - 1 && v.controllers[id].everHydrated;
    }
  }

  lemma CreateKeepsOrderly<T>(w: World<T>, initial: T)
    requires Orderly(w)
    ensures Orderly(Step(w, Create(initial)))
  {
    var v := Step(w, Create(initial));
    forall i | LastLoaded(v, i)
      ensures LastLoaded(w, i)
    {
      assert forall j :: i < j < |w.controllers| ==> v.controllers[j] == w.controllers[j];
    }
  }

  lemma CallKeepsOrderly<T>(w: World<T>, e: Event<T>, id: nat)
    requires Orderly(w) && id < |w.controllers|
    ensures Orderly(Apply(w, id, Call(w, e, id)))
  {
    var t := Call(w, e, id);
    CallIsGood(w, e, id);
    TurnKeepsOpsFit(w, id, t);
    TurnKeepsQueueOrdered(w, id, t);
    TurnKeepsWritersDrain(w, id, t);
    TurnKeepsHandedOver(w, id, t);
    TurnKeepsStore(w, id, t);
  }

  lemma StepKeepsOrderly<T>(w: World<T>, e: Event<T>)
    requires Orderly(w)
    ensures Orderly(Step(w, e))
  {
    match e
    case Create(initial) => CreateKeepsOrderly(w, initial);
    case LoadReturns =>
      if HeadIs(w, false) {
        LoadDoneKeepsQueue(w);
        LoadDoneKeepsStore(w);
      }
    case LoadRejects => if HeadIs(w, false) { LoadLostKeepsOrderly(w); }
    case SaveReturns =>
      if HeadIs(w, true) {
        SaveDoneKeepsQueue(w);
        SaveKeepsStore(w, false);
      }
    case SaveRejects(wrote) =>
      if HeadIs(w, true) {
        SaveLostKeepsQueue(w, wrote);
        SaveKeepsStore(w, wrote);
      }
    case _ => if e.id < |w.controllers| { CallKeepsOrderly(w, e, e.id); }
  }

  lemma {:induction false} RunKeepsOrderly<T>(w: World<T>, events: seq<Event<T>>)
    requires Orderly(w)
    ensures Orderly(Run(w, events))
    decreases events
  {
    if events != [] {
      StepKeepsOrderly(w, events[0]);
      RunKeepsOrderly(Step(w, events[0]), events[1..]);
    }
  }

  // ----------------------------------------------------------- main results

  function Start<T>(store: T): World<T> {
    World(store, [], [])
  }

  lemma {:induction false} LastLoadedIsLive<T>(w: World<T>, i: int)
    requires HandedOver(w) && 0 <= i < |w.controllers|
    requires !w.controllers[i].disposed && w.controllers[i].everHydrated
    ensures LastLoaded(w, i)
  {
    assert i == |w.controllers| - 1;
  }

  /** Whenever a live controller shows `ready` and is not loading, the stored value is
      the shown value. */
  lemma ReadyMeansStored<T>(store: T, events: seq<Event<T>>, i: nat)
    requires var w := Run(Start(store), events);
             && i < |w.controllers| && !w.controllers[i].disposed
             && w.controllers[i].status == Ready && !w.controllers[i].loading
    ensures Run(Start(store), events).store == Run(Start(store), events).controllers[i].value
  {
    RunKeepsOrderly(Start(store), events);
    LastLoadedIsLive(Run(Start(store), events), i);
  }

  /** Hand-over. When a load of a controller that has not loaded before is about to run,
      every predecessor has finished draining: nothing of it is queued, and unless its
      last save failed or it was reloading, the value about to be read is the last one
      its user set. */
  lemma SuccessorReadsTheLastEdit<T>(store: T, events: seq<Event<T>>, i: nat)
    requires var w := Run(Start(store), events); HeadIs(w, false) && LastLoaded(w, i)
    requires !Run(Start(store), events).controllers[Run(Start(store), events).queue[0].owner].everHydrated
    ensures var w := Run(Start(store), events);
            && (forall k :: 0 <= k < |w.queue| ==> w.queue[k].owner > i)
            && (w.controllers[i].hydrated && !w.controllers[i].paused && !w.controllers[i].loading ==>
                  w.store == w.controllers[i].value)
  {
    var w := Run(Start(store), events);
    RunKeepsOrderly(Start(store), events);
    NobodyWrites(w, i);
    assert i <= w.queue[0].owner;
    assert forall k :: 0 < k < |w.queue| ==> w.queue[0].owner <= w.queue[k].owner;
  }

  /** Nothing of an edit is waiting to be saved, as far as the flags tell. */
  ghost predicate Flushed<T>(c: Controller<T>) {
    c.hydrated && !c.paused && !c.writing
  }

  /** What one would like a successor to find. */
  ghost predicate HandoverIsCurrent<T>(w: World<T>) {
    forall i :: LastLoaded(w, i) && Flushed(w.controllers[i]) ==> w.store == w.controllers[i].value
  }

  /** The branch that fails: `flush` returns at once during a reload, so an edit, or the
      retry of a failed save, is left to a load that does nothing once the controller is
      disposed. */
  ghost predicate LeavesUnflushed<T>(w: World<T>, e: Event<T>) {
    && (e.CallSetValue? || e.CallRetry?) && e.id < |w.controllers| && LastLoaded(w, e.id)
    && var c := w.controllers[e.id];
       && !c.disposed && c.hydrated && c.loading && !c.writing
       && if e.CallSetValue? then !c.paused && e.value != w.store
          else c.paused && c.status == SaveError && c.value != w.store
  }

  ghost predicate CurrentAt<T>(w: World<T>, i: int)
    requires 0 <= i < |w.controllers|
  {
    LastLoaded(w, i) && Flushed(w.controllers[i]) ==> w.store == w.controllers[i].value
  }

  lemma CallKeepsHandoverUnless<T>(w: World<T>, e: Event<T>, id: nat)
    requires Orderly(w) && HandoverIsCurrent(w) && id < |w.controllers|
    requires e.CallLoad? || e.CallSetValue? || e.CallRetry? || e.CallDispose?
    requires e.id == id
    ensures HandoverIsCurrent(Apply(w, id, Call(w, e, id))) <==> !LeavesUnflushed(w, e)
  {
    var v := Apply(w, id, Call(w, e, id));
    CallIsGood(w, e, id);
    SameHistory(w, v, id);
    assert CurrentAt(w, id);
    assert CurrentAt(v, id) <==> !LeavesUnflushed(w, e);
    forall i | 0 <= i < |w.controllers| && i != id
      ensures CurrentAt(v, i)
    {
      SameHistory(w, v, i);
      assert v.controllers[i] == w.controllers[i] && CurrentAt(w, i);
    }
    assert HandoverIsCurrent(v) <==> forall i :: 0 <= i < |v.controllers| ==> CurrentAt(v, i);
  }

  lemma SaveKeepsHandover<T>(w: World<T>, wrote: bool)
    requires Orderly(w) && HeadIs(w, true)
    ensures HandoverIsCurrent(SaveDone(w)) && HandoverIsCurrent(SaveLost(w, wrote))
  {
    var op := w.queue[0];
    assert OpFits(w.controllers[op.owner], op);
    forall i | LastLoaded(SaveDone(w), i) || LastLoaded(SaveLost(w, wrote), i)
      ensures i == op.owner
    {
      SameHistory(w, SaveDone(w), i);
      SameHistory(w, SaveLost(w, wrote), i);
      DrainerLoadedLast(w, i);
    }
  }

  lemma LoadLostKeepsHandover<T>(w: World<T>)
    requires HandoverIsCurrent(w) && HeadIs(w, false)
    ensures HandoverIsCurrent(LoadLost(w))
  {
    forall i | LastLoaded(LoadLost(w), i)
      ensures LastLoaded(w, i)
    {
      SameHistory(w, LoadLost(w), i);
    }
  }

  /** A load that returns to a live controller settles it or flushes its edits. */
  lemma LoadDoneKeepsHandover<T>(w: World<T>)
    requires Orderly(w) && HandoverIsCurrent(w) && HeadIs(w, false)
    ensures HandoverIsCurrent(LoadDone(w))
  {
    var id, v := w.queue[0].owner, LoadDone(w);
    NobodyWrites(w, id);
    LoadDoneKeepsStore(w);
    if w.controllers[id].disposed {
      forall i | LastLoaded(v, i)
        ensures LastLoaded(w, i)
      {
        SameHistory(w, v, i);
      }
    } else {
      forall i | LastLoaded(v, i)
        ensures i == id
      {
        assert id == |w.controllers| - 1 && v.controllers[id].everHydrated;
      }
    }
  }

  /** Exactly those calls leave something that a successor will not find. */
  lemma HandoverIsCurrentUnless<T>(w: World<T>, e: Event<T>)
    requires Orderly(w) && HandoverIsCurrent(w)
    ensures HandoverIsCurrent(Step(w, e)) <==> !LeavesUnflushed(w, e)
  {
    match e
    case Create(initial) =>
      forall i | LastLoaded(Step(w, e), i)
        ensures LastLoaded(w, i)
      {
        assert forall j :: i < j < |w.controllers| ==> Step(w, e).controllers[j] == w.controllers[j];
      }
    case LoadReturns => if HeadIs(w, false) { LoadDoneKeepsHandover(w); }
    case LoadRejects => if HeadIs(w, false) { LoadLostKeepsHandover(w); }
    case SaveReturns => if HeadIs(w, true) { SaveKeepsHandover(w, false); }
    case SaveRejects(wrote) => if HeadIs(w, true) { SaveKeepsHandover(w, wrote); }
    case _ => if e.id < |w.controllers| { CallKeepsHandoverUnless(w, e, e.id); }
  }

  /** The worlds of a run in which no call leaves anything unflushed. */
  ghost predicate AllFlushed<T>(w: World<T>, events: seq<Event<T>>)
    decreases events
  {
    events == [] || (!LeavesUnflushed(w, events[0]) && AllFlushed(Step(w, events[0]), events[1..]))
  }

  ghost predicate AlwaysCurrent<T>(w: World<T>, events: seq<Event<T>>)
    decreases events
  {
    HandoverIsCurrent(w) && (events == [] || AlwaysCurrent(Step(w, events[0]), events[1..]))
  }

  /** In every run a successor would find the last edit at every moment if and only if no
      edit, and no retry, came during a reload with nothing being saved. */
  lemma {:induction false} AlwaysCurrentIff<T>(w: World<T>, events: seq<Event<T>>)
    requires Orderly(w) && HandoverIsCurrent(w)
    ensures AlwaysCurrent(w, events) <==> AllFlushed(w, events)
    decreases events
  {
    if events != [] {
      HandoverIsCurrentUnless(w, events[0]);
      StepKeepsOrderly(w, events[0]);
      if !LeavesUnflushed(w, events[0]) {
        AlwaysCurrentIff(Step(w, events[0]), events[1..]);
      }
    }
  }

  /** A predecessor that was edited while it loaded again, then disposed: its successor is
      about to read the value from before the edit. */
  lemma ReloadLosesAnEdit()
    ensures var loaded := World(7, [LoadOp(0)], [Controller(7, Loading, 0, true, true, false, false, false, true)]);
            var events := [CallSetValue(0, 5), CallDispose(0), Create(0), CallLoad(1), LoadReturns];
            && Run(Start(7), [Create(0), CallLoad(0), LoadReturns, CallLoad(0)]) == loaded
            && var w := Run(loaded, events);
               && HeadIs(w, false) && w.queue[0].owner == 1
               && w.controllers[0].value == 5 && w.store == 7
  {
    var w1 := Step(Start(7), Create(0));
    var w2 := Step(w1, CallLoad(0));
    var w3 := Step(w2, LoadReturns);
    var loaded := World(7, [LoadOp(0)], [Controller(7, Loading, 0, true, true, false, false, false, true)]);
    assert Step(w3, CallLoad(0)) == loaded;
    RunFour(Start(7), Create(0), CallLoad(0), LoadReturns, CallLoad(0));
    var v1 := Step(loaded, CallSetValue(0, 5));
    var v2 := Step(v1, CallDispose(0));
    var v3 := Step(v2, Create(0));
    var v4 := Step(v3, CallLoad(1));
    RunFour(loaded, CallSetValue(0, 5), CallDispose(0), Create(0), CallLoad(1));
    RunAppend(loaded, [CallSetValue(0, 5), CallDispose(0), Create(0), CallLoad(1)], [LoadReturns]);
    RunOne(v4, LoadReturns);
  }

  lemma RunFour<T>(w: World<T>, a: Event<T>, b: Event<T>, c: Event<T>, d: Event<T>)
    ensures Run(w, [a, b, c, d]) == Step(Step(Step(Step(w, a), b), c), d)
  {
    RunAppend(w, [a, b], [c, d]);
    RunAppend(w, [a], [b]);
    RunAppend(Run(w, [a, b]), [c], [d]);
    RunOne(w, a);
    RunOne(Step(w, a), b);
    RunOne(Run(w, [a, b]), c);
    RunOne(Step(Run(w, [a, b]), c), d);
  }

  // ------------------------------------------- reloading while a save is running

  /** What one would like to hold without looking at `loading`. */
  ghost predicate SavedWhenReady<T>(w: World<T>) {
    forall i :: 0 <= i < |w.controllers| && !w.controllers[i].disposed && w.controllers[i].status == Ready ==>
      w.store == w.controllers[i].value
  }

  /** The branch that fails: a save that ends during a reload shows `ready`, and an edit
      made then is not flushed. */
  ghost predicate EditsDuringReload<T>(w: World<T>, e: Event<T>) {
    && e.CallSetValue? && e.id < |w.controllers|
    && !w.controllers[e.id].disposed && w.controllers[e.id].loading && w.controllers[e.id].status == Ready
    && e.value != w.store
  }

  /** While a live controller shows ready nothing is being saved. */
  lemma ReadyMeansNoSave<T>(w: World<T>, i: int)
    requires Orderly(w) && 0 <= i < |w.controllers|
    requires !w.controllers[i].disposed && w.controllers[i].status == Ready
    ensures !HeadIs(w, true)
  {
    LastLoadedIsLive(w, i);
    HeadDrainIsItsWriter(w, i);
  }

  lemma HeadDrainIsItsWriter<T>(w: World<T>, i: int)
    requires OpsFit(w) && HandedOver(w) && LastLoaded(w, i)
    ensures HeadIs(w, true) ==> i == w.queue[0].owner && w.controllers[i].writing
  {
    if HeadIs(w, true) {
      DrainerLoadedLast(w, i);
      assert OpFits(w.controllers[i], w.queue[0]);
    }
  }

  ghost predicate SavedAt<T>(w: World<T>, i: int)
    requires 0 <= i < |w.controllers|
  {
    !w.controllers[i].disposed && w.controllers[i].status == Ready ==> w.store == w.controllers[i].value
  }

  lemma CallKeepsSavedUnless<T>(w: World<T>, e: Event<T>, id: nat)
    requires Orderly(w) && SavedWhenReady(w) && id < |w.controllers|
    requires e.CallLoad? || e.CallSetValue? || e.CallRetry? || e.CallDispose?
    requires e.id == id
    ensures SavedWhenReady(Apply(w, id, Call(w, e, id))) <==> !EditsDuringReload(w, e)
  {
    var v := Apply(w, id, Call(w, e, id));
    assert v.store == w.store;
    assert SavedAt(v, id) <==> !EditsDuringReload(w, e) by {
      assert SavedAt(w, id);
    }
    forall i | 0 <= i < |w.controllers| && i != id
      ensures SavedAt(v, i)
    {
      assert v.controllers[i] == w.controllers[i];
    }
    assert SavedWhenReady(v) <==> forall i :: 0 <= i < |v.controllers| ==> SavedAt(v, i);
  }

  lemma QueueKeepsSaved<T>(w: World<T>, e: Event<T>)
    requires Orderly(w) && SavedWhenReady(w) && (e.LoadReturns? || e.LoadRejects? || e.SaveReturns? || e.SaveRejects?)
    ensures SavedWhenReady(Step(w, e))
  {
    var v := Step(w, e);
    StepKeepsOrderly(w, e);
    assert |v.controllers| == |w.controllers|;
    if HeadIs(w, true) {
      assert OpFits(w.controllers[w.queue[0].owner], w.queue[0]);
    }
    forall i | 0 <= i < |v.controllers| && !v.controllers[i].disposed && v.controllers[i].status == Ready
      ensures v.store == v.controllers[i].value
    {
      if !v.controllers[i].loading {
        LastLoadedIsLive(v, i);
      } else if w.controllers[i].status == Ready {
        ReadyMeansNoSave(w, i);
      }
    }
  }

  /** Exactly those edits break it. */
  lemma SavedWhenReadyUnless<T>(w: World<T>, e: Event<T>)
    requires Orderly(w) && SavedWhenReady(w)
    ensures SavedWhenReady(Step(w, e)) <==> !EditsDuringReload(w, e)
  {
    match e
    case Create(initial) =>
    case LoadReturns => QueueKeepsSaved(w, e);
    case LoadRejects => QueueKeepsSaved(w, e);
    case SaveReturns => QueueKeepsSaved(w, e);
    case SaveRejects(_) => QueueKeepsSaved(w, e);
    case _ => if e.id < |w.controllers| { CallKeepsSavedUnless(w, e, e.id); }
  }

  /** The runs in which no such edit occurs, and those that are saved when ready at every
      moment. */
  ghost predicate NoEditDuringReload<T>(w: World<T>, events: seq<Event<T>>)
    decreases events
  {
    events == [] || (!EditsDuringReload(w, events[0]) && NoEditDuringReload(Step(w, events[0]), events[1..]))
  }

  ghost predicate AlwaysSaved<T>(w: World<T>, events: seq<Event<T>>)
    decreases events
  {
    SavedWhenReady(w) && (events == [] || AlwaysSaved(Step(w, events[0]), events[1..]))
  }

  lemma {:induction false} AlwaysSavedFromIff<T>(w: World<T>, events: seq<Event<T>>)
    requires Orderly(w) && SavedWhenReady(w)
    ensures AlwaysSaved(w, events) <==> NoEditDuringReload(w, events)
    decreases events
  {
    if events != [] {
      SavedWhenReadyUnless(w, events[0]);
      StepKeepsOrderly(w, events[0]);
      if !EditsDuringReload(w, events[0]) {
        AlwaysSavedFromIff(Step(w, events[0]), events[1..]);
      }
    }
  }

  /** From the start every moment of a run is saved when ready if and only if no edit, to
      another value, came while a controller showed ready during a reload. */
  lemma AlwaysSavedIff<T>(store: T, events: seq<Event<T>>)
    ensures AlwaysSaved(Start(store), events) <==> NoEditDuringReload(Start(store), events)
  {
    AlwaysSavedFromIff(Start(store), events);
  }

  lemma {:induction false} RunAppend<T>(w: World<T>, before: seq<Event<T>>, after: seq<Event<T>>)
    ensures Run(w, before + after) == Run(Run(w, before), after)
    decreases before
  {
    if before == [] {
      assert before + after == after;
    } else {
      assert (before + after)[1..] == before[1..] + after;
      RunAppend(Step(w, before[0]), before[1..], after);
    }
  }

  lemma RunOne<T>(w: World<T>, e: Event<T>)
    ensures Run(w, [e]) == Step(w, e)
  {
    assert [e][1..] == [];
    assert Run(Step(w, e), []) == Step(w, e);
  }

  /** The loaded controller with an edit being saved, while it is loaded again. */
  function Reloading(): World<int> {
    World(7, [DrainOp(0, 1, 1), LoadOp(0)], [Controller(1, Loading, 1, true, true, true, false, false, true)])
  }

  lemma ReachReloading()
    ensures Run(Start(7), [Create(0), CallLoad(0), LoadReturns, CallSetValue(0, 1), CallLoad(0)]) == Reloading()
  {
    var w1 := Step(Start(7), Create(0));
    var w2 := Step(w1, CallLoad(0));
    var w3 := Step(w2, LoadReturns);
    var w4 := Step(w3, CallSetValue(0, 1));
    RunOne(w4, CallLoad(0));
    RunAppend(w3, [CallSetValue(0, 1)], [CallLoad(0)]);
    RunOne(w3, CallSetValue(0, 1));
    RunAppend(w2, [LoadReturns], [CallSetValue(0, 1), CallLoad(0)]);
    RunOne(w2, LoadReturns);
    RunAppend(w1, [CallLoad(0)], [LoadReturns, CallSetValue(0, 1), CallLoad(0)]);
    RunOne(w1, CallLoad(0));
    RunAppend(Start(7), [Create(0)], [CallLoad(0), LoadReturns, CallSetValue(0, 1), CallLoad(0)]);
    RunOne(Start(7), Create(0));
  }

  /** A concrete history: an edit during a reload is shown as ready and is not stored. */
  lemma ReloadHidesAnEdit()
    ensures var loading := [Create(0), CallLoad(0), LoadReturns, CallSetValue(0, 1), CallLoad(0)];
            var w := Run(Start(7), loading + [SaveReturns] + [CallSetValue(0, 2)]);
            |w.controllers| == 1 && w.controllers[0].status == Ready && w.controllers[0].value == 2 && w.store == 1
  {
    var loading: seq<Event<int>> := [Create(0), CallLoad(0), LoadReturns, CallSetValue(0, 1), CallLoad(0)];
    ReachReloading();
    RunAppend(Start(7), loading, [SaveReturns]);
    RunOne(Reloading(), SaveReturns);
    RunAppend(Start(7), loading + [SaveReturns], [CallSetValue(0, 2)]);
    RunOne(Step(Reloading(), SaveReturns), CallSetValue(0, 2));
  }

  /** No load is called while a save is running. */
  ghost predicate Calm<T>(w: World<T>, events: seq<Event<T>>)
    decreases events
  {
    events == [] ||
    (&& (events[0].CallLoad? && events[0].id < |w.controllers| ==> !w.controllers[events[0].id].writing)
     && Calm(Step(w, events[0]), events[1..]))
  }

  ghost predicate NeverReadyWhileLoading<T>(w: World<T>) {
    forall i :: 0 <= i < |w.controllers| ==> CalmController(w.controllers[i])
  }

  lemma {:induction false} CalmRunsNeverShowReadyWhileLoading<T>(w: World<T>, events: seq<Event<T>>)
    requires Orderly(w) && NeverReadyWhileLoading(w) && Calm(w, events)
    ensures NeverReadyWhileLoading(Run(w, events))
    decreases events
  {
    if events != [] {
      var e := events[0];
      StepKeepsOrderly(w, e);
      CalmStep(w, e);
      CalmRunsNeverShowReadyWhileLoading(Step(w, e), events[1..]);
    }
  }

  ghost predicate CalmController<T>(c: Controller<T>) {
    !c.disposed ==>
      && (c.loading ==> !c.writing && c.status == Loading)
      && (c.status == LoadError ==> !c.writing && !c.hydrated)
  }

  lemma CalmCall<T>(w: World<T>, e: Event<T>, id: nat)
    requires id < |w.controllers| && CalmController(w.controllers[id])
    requires e.CallLoad? ==> !w.controllers[id].writing
    ensures CalmController(Call(w, e, id).c)
  {
  }

  lemma CalmQueueStep<T>(w: World<T>, e: Event<T>)
    requires Orderly(w) && NeverReadyWhileLoading(w)
    requires e.LoadReturns? || e.LoadRejects? || e.SaveReturns? || e.SaveRejects?
    ensures NeverReadyWhileLoading(Step(w, e))
  {
    if HeadIs(w, false) {
      NobodyWrites(w, w.queue[0].owner);
    } else if HeadIs(w, true) {
      assert OpFits(w.controllers[w.queue[0].owner], w.queue[0]);
    }
    var v := Step(w, e);
    forall i | 0 <= i < |v.controllers|
      ensures CalmController(v.controllers[i])
    {
      assert CalmController(w.controllers[i]);
    }
  }

  lemma CalmStep<T>(w: World<T>, e: Event<T>)
    requires Orderly(w) && NeverReadyWhileLoading(w)
    requires e.CallLoad? && e.id < |w.controllers| ==> !w.controllers[e.id].writing
    ensures NeverReadyWhileLoading(Step(w, e))
  {
    match e
    case Create(_) =>
    case LoadReturns => CalmQueueStep(w, e);
    case LoadRejects => CalmQueueStep(w, e);
    case SaveReturns => CalmQueueStep(w, e);
    case SaveRejects(_) => CalmQueueStep(w, e);
    case _ =>
      if e.id < |w.controllers| {
        assert CalmController(w.controllers[e.id]);
        CalmCall(w, e, e.id);
      }
  }

  /** If no load is called while a save is running, `ready` always means stored. */
  lemma CalmRunsAreSaved<T>(store: T, events: seq<Event<T>>)
    requires Calm(Start(store), events)
    ensures SavedWhenReady(Run(Start(store), events))
  {
    var w := Run(Start(store), events);
    RunKeepsOrderly(Start(store), events);
    CalmRunsNeverShowReadyWhileLoading(Start(store), events);
    forall i | 0 <= i < |w.controllers| && !w.controllers[i].disposed && w.controllers[i].status == Ready
      ensures w.store == w.controllers[i].value
    {
      ReadyMeansStored(store, events, i);
    }
  }

  // ------------------------------------------- loads show, edits are stored

  lemma RunTwo<T>(w: World<T>, a: Event<T>, b: Event<T>)
    ensures Run(w, [a, b]) == Step(Step(w, a), b)
  {
    RunAppend(w, [a], [b]);
    RunOne(w, a);
    RunOne(Step(w, a), b);
  }

  /** The first load shows what is stored. */
  lemma LoadShowsTheStore<T>(store: T, initial: T)
    ensures var w := Run(Start(store), [Create(initial), CallLoad(0), LoadReturns]);
            && |w.controllers| == 1 && w.controllers[0].value == store && w.controllers[0].status == Ready
            && w.controllers[0].hydrated && !w.controllers[0].loading && w.store == store && w.queue == []
  {
    var w1 := Step(Start(store), Create(initial));
    assert w1 == World(store, [], [Fresh(initial)]);
    RunAppend(Start(store), [Create(initial)], [CallLoad(0), LoadReturns]);
    RunOne(Start(store), Create(initial));
    RunTwo(w1, CallLoad(0), LoadReturns);
  }

  /** A hydrated controller with nothing on its way. */
  predicate Rests<T>(w: World<T>, id: nat) {
    && id < |w.controllers| && w.queue == []
    && var c := w.controllers[id];
       !c.disposed && c.hydrated && !c.loading && !c.writing && !c.paused
  }

  /** An edit is shown and saving at once, and stored and ready when its save returns. */
  lemma EditIsStored<T>(w: World<T>, id: nat, value: T)
    requires Rests(w, id)
    ensures var shown := Step(w, CallSetValue(id, value));
            shown.controllers[id].value == value && shown.controllers[id].status == Saving && shown.store == w.store
    ensures var saved := Run(w, [CallSetValue(id, value), SaveReturns]);
            && saved.store == value && Rests(saved, id)
            && saved.controllers[id].value == value && saved.controllers[id].status == Ready
  {
    RunTwo(w, CallSetValue(id, value), SaveReturns);
  }

  /** An edit made while another is being saved is stored by the same drain. */
  lemma LaterEditIsStoredToo<T>(w: World<T>, id: nat, first: T, second: T)
    requires Rests(w, id)
    ensures var saved := Run(Run(w, [CallSetValue(id, first), CallSetValue(id, second)]), [SaveReturns, SaveReturns]);
            && saved.store == second && Rests(saved, id)
            && saved.controllers[id].value == second && saved.controllers[id].status == Ready
  {
    RunTwo(w, CallSetValue(id, first), CallSetValue(id, second));
    RunTwo(Run(w, [CallSetValue(id, first), CallSetValue(id, second)]), SaveReturns, SaveReturns);
  }

  /** A save that fails is reported and kept; a retry stores the shown value. */
  lemma FailedSaveIsRetried<T>(w: World<T>, id: nat, value: T, wrote: bool)
    requires Rests(w, id)
    ensures var failed := Run(w, [CallSetValue(id, value), SaveRejects(wrote)]);
            && id < |failed.controllers| && failed.controllers[id].status == SaveError
            && failed.controllers[id].value == value
            && failed.store == (if wrote then value else w.store)
            && var saved := Run(failed, [CallRetry(id), SaveReturns]);
               saved.store == value && Rests(saved, id) && saved.controllers[id].status == Ready
  {
    RunTwo(w, CallSetValue(id, value), SaveRejects(wrote));
    RunTwo(Run(w, [CallSetValue(id, value), SaveRejects(wrote)]), CallRetry(id), SaveReturns);
  }

  /** A load that fails is reported, and a retry loads again. */
  lemma FailedLoadIsRetried<T>(store: T, initial: T)
    ensures var failed := Run(Run(Start(store), [Create(initial), CallLoad(0)]), [LoadRejects, CallRetry(0)]);
            && |failed.controllers| == 1 && failed.controllers[0].status == Loading
            && var loaded := Step(failed, LoadReturns);
               loaded.controllers[0].value == store && loaded.controllers[0].status == Ready
    ensures Step(Run(Start(store), [Create(initial), CallLoad(0)]), LoadRejects).controllers[0].status == LoadError
  {
    RunTwo(Start(store), Create(initial), CallLoad(0));
    RunTwo(Run(Start(store), [Create(initial), CallLoad(0)]), LoadRejects, CallRetry(0));
  }

  /** An edit made before the first load wins over what is stored, and is stored. */
  lemma EarlyEditWins<T>(store: T, initial: T, value: T)
    ensures var loading := Run(Start(store), [Create(initial), CallLoad(0)]);
            && |loading.controllers| == 1
            && var saved := Step(Run(loading, [CallSetValue(0, value), LoadReturns]), SaveReturns);
               && |saved.controllers| == 1 && saved.store == value
               && saved.controllers[0].value == value && saved.controllers[0].status == Ready
  {
    RunTwo(Start(store), Create(initial), CallLoad(0));
    RunTwo(Run(Start(store), [Create(initial), CallLoad(0)]), CallSetValue(0, value), LoadReturns);
  }
}

/** Persisted preferences (apps/viewer-expo/src/preference-persistence.ts): optimistic
    edits, one ordered queue of storage operations per key, and the hand-over from a
    disposed controller to its successor. */
module Preferences {
  datatype Status = Loading | Ready | Saving | LoadError | SaveError

  /** `everHydrated` is history only: some load of this controller succeeded. */
  datatype Controller<T> = Controller(
    value: T, status: Status, revision: nat,
    hydrated: bool, loading: bool, writing: bool, paused: bool, disposed: bool, everHydrated: bool)

  /** Queued storage work. A drain holds the revision and the value being saved. */
  datatype Op<T> = LoadOp(owner: nat) | DrainOp(owner: nat, revision: nat, value: T)

  datatype World<T> = World(store: T, queue: seq<Op<T>>, controllers: seq<Controller<T>>)

  /** The controller after a call, and the operations it queued. */
  datatype Turn<T> = Turn(c: Controller<T>, ops: seq<Op<T>>)

  function Fresh<T>(initial: T): Controller<T> {
    Controller(initial, Loading, 0, false, false, false, false, false, false)
  }

  function Shown<T>(c: Controller<T>, status: Status): Controller<T> {
    if c.disposed then c else c.(status := status)
  }

  function Flush<T>(id: nat, c: Controller<T>): Turn<T> {
    if c.disposed || !c.hydrated || c.loading || c.writing || c.paused then Turn(c, [])
    else Turn(c.(writing := true, status := Saving), [DrainOp(id, c.revision, c.value)])
  }

  function Load<T>(id: nat, c: Controller<T>): Turn<T> {
    if c.disposed || c.loading then Turn(c, [])
    else Turn(c.(loading := true, status := Loading), [LoadOp(id)])
  }

  function SetValue<T>(id: nat, c: Controller<T>, value: T): Turn<T> {
    if c.disposed then Turn(c, [])
    else
      var edited := c.(revision := c.revision + 1, value := value);
      if edited.hydrated && !edited.paused then Flush(id, edited) else Turn(edited, [])
  }

  function Retry<T>(id: nat, c: Controller<T>): Turn<T> {
    if c.disposed then Turn(c, [])
    else if c.status == LoadError then Load(id, c)
    else if c.status == SaveError then Flush(id, c.(paused := false))
    else Turn(c, [])
  }

  /** The load of this controller returned. */
  function Loaded<T>(id: nat, c: Controller<T>, loaded: T): Turn<T> {
    if c.disposed then Turn(c, [])
    else
      var h := c.(loading := false, hydrated := true, paused := false, everHydrated := true, status := Ready);
      if h.revision == 0 then Turn(h.(value := loaded), []) else Flush(id, h)
  }

  function LoadFailed<T>(c: Controller<T>): Controller<T> {
    if c.disposed then c else c.(loading := false, hydrated := false, status := LoadError)
  }

  function Saved<T>(c: Controller<T>): Controller<T> {
    Shown(c.(writing := false), Ready)
  }

  function SaveFailed<T>(c: Controller<T>): Controller<T> {
    Shown(c.(writing := false, paused := true), SaveError)
  }

  datatype Event<T> =
    | Create(initial: T)
    | CallLoad(id: nat)
    | CallSetValue(id: nat, value: T)
    | CallRetry(id: nat)
    | CallDispose(id: nat)
    | LoadReturns
    | LoadRejects
    | SaveReturns
    | SaveRejects(wrote: bool)

  function Apply<T>(w: World<T>, id: nat, turn: Turn<T>): World<T>
    requires id < |w.controllers|
  {
    w.(controllers := w.controllers[id := turn.c], queue := w.queue + turn.ops)
  }

  predicate AllDisposed<T>(w: World<T>) {
    forall i :: 0 <= i < |w.controllers| ==> w.controllers[i].disposed
  }

  predicate HeadIs<T>(w: World<T>, drain: bool) {
    w.queue != [] && w.queue[0].owner < |w.controllers| && (w.queue[0].DrainOp? <==> drain)
  }

  /** The head save succeeded: the drain goes on while newer edits were accepted. */
  function SaveDone<T>(w: World<T>): World<T>
    requires HeadIs(w, true)
  {
    var op := w.queue[0];
    var c := w.controllers[op.owner];
    var s := w.(store := op.value);
    if c.revision == op.revision then
      s.(queue := w.queue[1..], controllers := w.controllers[op.owner := Saved(c)])
    else
      s.(queue := [DrainOp(op.owner, c.revision, c.value)] + w.queue[1..])
  }

  function SaveLost<T>(w: World<T>, wrote: bool): World<T>
    requires HeadIs(w, true)
  {
    var op := w.queue[0];
    w.(store := if wrote then op.value else w.store,
       queue := w.queue[1..],
       controllers := w.controllers[op.owner := SaveFailed(w.controllers[op.owner])])
  }

  function LoadDone<T>(w: World<T>): World<T>
    requires HeadIs(w, false)
  {
    var id := w.queue[0].owner;
    Apply(w.(queue := w.queue[1..]), id, Loaded(id, w.controllers[id], w.store))
  }

  function LoadLost<T>(w: World<T>): World<T>
    requires HeadIs(w, false)
  {
    var id := w.queue[0].owner;
    w.(queue := w.queue[1..], controllers := w.controllers[id := LoadFailed(w.controllers[id])])
  }

  function Call<T>(w: World<T>, e: Event<T>, id: nat): Turn<T>
    requires id < |w.controllers|
  {
    var c := w.controllers[id];
    match e
    case CallLoad(_) => Load(id, c)
    case CallSetValue(_, value) => SetValue(id, c, value)
    case CallRetry(_) => Retry(id, c)
    case CallDispose(_) => Turn(c.(disposed := true), [])
    case _ => Turn(c, [])
  }

  /** A successor is only created once its predecessors are disposed. */
  function Step<T>(w: World<T>, e: Event<T>): World<T> {
    match e
    case Create(initial) => if AllDisposed(w) then w.(controllers := w.controllers + [Fresh(initial)]) else w
    case LoadReturns => if HeadIs(w, false) then LoadDone(w) else w
    case LoadRejects => if HeadIs(w, false) then LoadLost(w) else w
    case SaveReturns => if HeadIs(w, true) then SaveDone(w) else w
    case SaveRejects(wrote) => if HeadIs(w, true) then SaveLost(w, wrote) else w
    case _ => if e.id < |w.controllers| then Apply(w, e.id, Call(w, e, e.id)) else w
  }

  function Run<T>(w: World<T>, events: seq<Event<T>>): World<T>
    decreases events
  {
    if events == [] then w else Run(Step(w, events[0]), events[1..])
  }

  // ------------------------------------------------- the controller, in place

  class StorageOperationQueue<T> {
    var ops: seq<Op<T>>

    constructor ()
      ensures ops == []
    {
      ops := [];
    }

    method Enqueue(op: Op<T>)
      modifies this
      ensures ops == old(ops) + [op]
    {
      ops := ops + [op];
    }
  }

  class PreferencePersistenceController<T(==)> {
    const id: nat
    const operations: StorageOperationQueue<T>
    var value: T
    var status: Status
    var revision: nat
    var hydrated: bool
    var loading: bool
    var writing: bool
    var writePaused: bool
    var disposed: bool
    ghost var everHydrated: bool

    ghost function Model(): Controller<T>
      reads this
    {
      Controller(value, status, revision, hydrated, loading, writing, writePaused, disposed, everHydrated)
    }

    /** This call changed the controller and the queue as `t` says. */
    ghost predicate Took(t: Turn<T>, queued: seq<Op<T>>)
      reads this, operations
    {
      Model() == t.c && operations.ops == queued + t.ops
    }

    constructor (id: nat, initial: T, operations: StorageOperationQueue<T>)
      ensures this.id == id && this.operations == operations && Model() == Fresh(initial)
    {
      this.id, this.operations, value, status, revision := id, operations, initial, Loading, 0;
      hydrated, loading, writing, writePaused, disposed, everHydrated := false, false, false, false, false, false;
    }

    method Publish(newValue: T, newStatus: Status)
      modifies this`value, this`status
      ensures if disposed then value == old(value) && status == old(status) else value == newValue && status == newStatus
    {
      if !disposed {
        value, status := newValue, newStatus;
      }
    }

    method LoadValue()
      modifies this, operations
      ensures Took(Load(id, old(Model())), old(operations.ops))
    {
      if disposed || loading {
        return;
      }
      loading := true;
      Publish(value, Loading);
      operations.Enqueue(LoadOp(id));
    }

    method EditValue(newValue: T)
      modifies this, operations
      ensures Took(SetValue(id, old(Model()), newValue), old(operations.ops))
    {
      if disposed {
        return;
      }
      revision := revision + 1;
      Publish(newValue, status);
      if hydrated && !writePaused {
        FlushEdits();
      }
    }

    method RetryLast()
      modifies this, operations
      ensures Took(Retry(id, old(Model())), old(operations.ops))
    {
      if disposed {
        return;
      }
      if status == LoadError {
        LoadValue();
        return;
      }
      if status == SaveError {
        writePaused := false;
        FlushEdits();
      }
    }

    method Dispose()
      modifies this`disposed
      ensures Model() == old(Model()).(disposed := true)
    {
      disposed := true;
    }

    method FlushEdits()
      modifies this, operations
      ensures Took(Flush(id, old(Model())), old(operations.ops))
    {
      if disposed || !hydrated || loading || writing || writePaused {
        return;
      }
      writing := true;
      Publish(value, Saving);
      operations.Enqueue(DrainOp(id, revision, value));
    }

    /** The queued load returned. */
    method LoadReturned(loaded: T)
      modifies this, operations
      ensures Took(Loaded(id, old(Model()), loaded), old(operations.ops))
    {
      if disposed {
        return;
      }
      loading, hydrated, writePaused, everHydrated := false, true, false, true;
      if revision == 0 {
        Publish(loaded, Ready);
      } else {
        Publish(value, Ready);
        FlushEdits();
      }
    }

    method LoadRejected()
      modifies this
      ensures Model() == LoadFailed(old(Model()))
    {
      if !disposed {
        loading, hydrated := false, false;
        Publish(value, LoadError);
      }
    }

    /** One save of the drain returned: it goes on with the newest edit, or ends. */
    method SaveReturned(saved: Op<T>) returns (next: seq<Op<T>>)
      requires saved.DrainOp? && saved.owner == id
      modifies this
      ensures if old(revision) == saved.revision
              then Model() == Saved(old(Model())) && next == []
              else Model() == old(Model()) && next == [DrainOp(id, revision, value)]
    {
      if revision == saved.revision {
        writing := false;
        Publish(value, Ready);
        next := [];
      } else {
        next := [DrainOp(id, revision, value)];
      }
    }

    method SaveRejected()
      modifies this
      ensures Model() == SaveFailed(old(Model()))
    {
      writing, writePaused := false, true;
      Publish(value, SaveError);
    }
  }
}

/** One pairing attempt (apps/viewer-expo/src/pairing.ts, connect-flow.ts): its retained
    rollbacks, and the flow that pairs, connects, navigates and commits. */
module PairingFlow {
  import opened Wrappers
  import opened Credentials
  import opened CredentialsHistory

  // ------------------------------------------------- retained rollbacks

  /** `retained` holds the rollbacks in the order they were retained; `ran` those that
      were started, in order. */
  datatype Attempt = Attempt(aborted: bool, committed: bool, retained: seq<nat>, ran: seq<nat>)

  const Created := Attempt(false, false, [], [])

  datatype Event = Retain(rollback: nat) | Commit | Cancel

  function Reversed(s: seq<nat>): (r: seq<nat>)
    ensures |r| == |s|
  {
    seq(|s|, i requires 0 <= i < |s| => s[|s| - 1 - i])
  }

  /** `retainRollback`, `commit` (which throws once aborted) and `cancel`. */
  function Step(a: Attempt, e: Event): Attempt {
    match e
    case Retain(rollback) => if a.committed then a else a.(retained := a.retained + [rollback])
    case Commit => if a.aborted then a else a.(committed := true, retained := [])
    case Cancel =>
      var c := a.(aborted := true);
      if a.committed then c else c.(retained := [], ran := a.ran + Reversed(a.retained))
  }

  function Run(a: Attempt, events: seq<Event>): Attempt
    decreases events
  {
    if events == [] then a else Run(Step(a, events[0]), events[1..])
  }

  function Retained(events: seq<Event>): multiset<nat> {
    if events == [] then multiset{}
    else (if events[0].Retain? then multiset{events[0].rollback} else multiset{}) + Retained(events[1..])
  }

  lemma {:induction false} ReversedIsAPermutation(s: seq<nat>)
    ensures multiset(Reversed(s)) == multiset(s)
  {
    if s != [] {
      var last := |s| - 1;
      assert Reversed(s) == [s[last]] + Reversed(s[..last]);
      assert s == s[..last] + [s[last]];
      ReversedIsAPermutation(s[..last]);
    }
  }

  function Accounted(a: Attempt): multiset<nat> {
    multiset(a.ran) + multiset(a.retained)
  }

  lemma StepAccounts(a: Attempt, e: Event)
    ensures Accounted(Step(a, e)) <= Accounted(a) + Retained([e])
    ensures !Step(a, e).committed ==> Accounted(Step(a, e)) == Accounted(a) + Retained([e])
  {
    ReversedIsAPermutation(a.retained);
    assert [e][1..] == [];
  }

  lemma {:induction false} RunAccounts(a: Attempt, events: seq<Event>)
    ensures Accounted(Run(a, events)) <= Accounted(a) + Retained(events)
    ensures !Run(a, events).committed ==> Accounted(Run(a, events)) == Accounted(a) + Retained(events)
    ensures a.committed ==> Run(a, events).committed
    decreases events
  {
    if events != [] {
      var b, one, rest := Step(a, events[0]), Retained([events[0]]), Retained(events[1..]);
      StepAccounts(a, events[0]);
      assert [events[0]][1..] == [];
      assert Retained(events) == one + rest;
      RunAccounts(b, events[1..]);
      AccountsAddUp(Accounted(Run(a, events)), Accounted(b), Accounted(a), one, rest);
    }
  }

  lemma AccountsAddUp(last: multiset<nat>, next: multiset<nat>, first: multiset<nat>, one: multiset<nat>, rest: multiset<nat>)
    ensures last <= next + rest && next <= first + one ==> last <= first + (one + rest)
    ensures last == next + rest && next == first + one ==> last == first + (one + rest)
  {
  }

  /** However commits, cancels and late retains interleave, each retained rollback runs
      at most once; and without a commit nothing retained is forgotten: it has run or
      still waits. */
  lemma RollbacksRunAtMostOnce(events: seq<Event>)
    ensures multiset(Run(Created, events).ran) <= Retained(events)
    ensures !Run(Created, events).committed ==>
      multiset(Run(Created, events).ran) + multiset(Run(Created, events).retained) == Retained(events)
  {
    RunAccounts(Created, events);
    assert Accounted(Created) + Retained(events) == Retained(events);
    assert multiset(Run(Created, events).ran) <= Accounted(Run(Created, events));
  }

  lemma {:induction false} RunKeepsCommitClean(a: Attempt, events: seq<Event>)
    requires (a.committed || !a.aborted) ==> a.ran == []
    ensures Run(a, events).committed || !Run(a, events).aborted ==> Run(a, events).ran == []
    decreases events
  {
    if events != [] {
      RunKeepsCommitClean(Step(a, events[0]), events[1..]);
    }
  }

  /** A committed attempt was never rolled back, and never will be. */
  lemma CommittedIsNeverRolledBack(before: seq<Event>, after: seq<Event>)
    requires Run(Created, before).committed
    ensures Run(Run(Created, before), after).committed && Run(Run(Created, before), after).ran == []
  {
    RunKeepsCommitClean(Created, before);
    RunAccounts(Run(Created, before), after);
    RunKeepsCommitClean(Run(Created, before), after);
  }

  /** An attempt that nobody cancelled commits and forgets its rollbacks; a cancelled one
      does not. Cancelling runs what is retained, the newest first. */
  lemma EndsOfAnAttempt(a: Attempt)
    ensures Step(a, Commit) == if a.aborted then a else Attempt(false, true, [], a.ran)
    ensures var t := Step(a, Cancel);
            && t.aborted && t.committed == a.committed
            && if a.committed then t.retained == a.retained && t.ran == a.ran
               else t.retained == [] && |t.ran| == |a.ran| + |a.retained|
                    && (forall k :: 0 <= k < |a.ran| ==> t.ran[k] == a.ran[k])
                    && (forall k :: |a.ran| <= k < |t.ran| ==> t.ran[k] == a.retained[|t.ran| - 1 - k])
  {
  }

  // ------------------------------------------------------- the whole flow

  /** How one run of `finishPairingAttempt` goes. The pairing stores a token unless it
      fails before; outside cancellations may arrive at every suspension. `meanwhile` are
      the writes of other credential transactions between the store and its rollback or
      commit, `undo` the outcomes of the rollback's own writes. */
  datatype Course = Course(
    cancelledBefore: bool,
    pairing: Option<Pairing>,
    cancelledAfterStore: bool,
    meanwhile: seq<Entry>,
    cancelledWhileConnecting: bool,
    connects: bool,
    navigates: bool,
    undo: seq<Outcome>)

  datatype End = End(store: Store, committed: bool)

  /** The abort checks inside the pairing see an outside cancellation. */
  predicate AbortsStore(p: Pairing) {
    p.plan.abortFrom <= 4
  }

  function Overwritten(store: Store, writes: seq<Entry>): Store {
    if writes == [] then store
    else Put(Overwritten(store, writes[..|writes| - 1]), writes[|writes| - 1])
  }

  function Finished(store: Store, c: Course): End {
    if c.cancelledBefore || c.pairing.None? then End(store, false)
    else
      var p := c.pairing.value;
      var s := StoreToken(store, p.target, p.token, p.plan, p.repair);
      if s.rollback.None? then End(s.store, false)
      else
        var left := Overwritten(s.store, c.meanwhile);
        if c.cancelledAfterStore || c.cancelledWhileConnecting || !c.connects || !c.navigates
        then End(RolledBack(left, s.rollback.value, c.undo), false)
        else End(left, true)
  }

  class PairingAttempt {
    const store: SecureStore
    var aborted: bool
    var committed: bool
    var rollbacks: seq<Rollback>

    constructor (store: SecureStore)
      ensures this.store == store && !aborted && !committed && rollbacks == []
    {
      this.store, aborted, committed, rollbacks := store, false, false, [];
    }

    method RetainRollback(r: Rollback)
      modifies this`rollbacks
      ensures rollbacks == if committed then old(rollbacks) else old(rollbacks) + [r]
    {
      if !committed {
        rollbacks := rollbacks + [r];
      }
    }

    method CommitAttempt() returns (ok: bool)
      modifies this
      ensures ok == !aborted && aborted == old(aborted)
      ensures if ok then committed && rollbacks == [] else committed == old(committed) && rollbacks == old(rollbacks)
    {
      if aborted {
        return false;
      }
      committed, rollbacks := true, [];
      ok := true;
    }

    /** Runs what was retained, the newest first; a rollback whose writes fail does not
        keep the others from running. */
    method CancelAttempt(undos: seq<seq<Outcome>>)
      modifies this, store
      ensures aborted && committed == old(committed)
      ensures if committed then rollbacks == old(rollbacks) && store.values == old(store.values)
              else rollbacks == [] && store.values == Unwound(old(store.values), old(rollbacks), undos)
    {
      aborted := true;
      if committed {
        return;
      }
      var pending := rollbacks;
      rollbacks := [];
      var n := |pending|;
      assert pending[..n] == pending;
      while n > 0
        invariant 0 <= n <= |pending| && aborted && !committed && rollbacks == []
        invariant Unwound(store.values, pending[..n], undos) == Unwound(old(store.values), pending, undos)
      {
        n := n - 1;
        assert pending[..n + 1][..n] == pending[..n];
        store.RunRollback(pending[n], if n < |undos| then undos[n] else []);
      }
    }

    /** `finishPairingAttempt` on a fresh attempt. */
    method FinishPairingAttempt(c: Course) returns (ok: bool)
      requires !aborted && !committed && rollbacks == []
      modifies this, store
      ensures ok == committed
      ensures End(store.values, committed) == Finished(old(store.values), c)
      ensures rollbacks == []
    {
      ok := Advance(c);
      if !ok {
        CancelAttempt([c.undo]);
      }
    }

    /** The `try` block, up to the first step that throws. */
    method Advance(c: Course) returns (ok: bool)
      requires !aborted && !committed && rollbacks == []
      modifies this, store
      ensures ok == committed
      ensures ok ==> rollbacks == [] && End(store.values, true) == Finished(old(store.values), c)
      ensures !ok ==> End(Unwound(store.values, rollbacks, [c.undo]), false) == Finished(old(store.values), c)
    {
      if c.cancelledBefore {
        CancelAttempt([]);
        return false;
      }
      if c.pairing.None? {
        return false;
      }
      var p := c.pairing.value;
      var rollback := store.Store(p.target, p.token, p.plan, p.repair);
      if rollback.None? {
        if AbortsStore(p) {
          CancelAttempt([]);
        }
        return false;
      }
      if c.cancelledAfterStore {
        // The cancellation came before the rollback was retained.
        CancelAttempt([]);
      }
      RetainRollback(rollback.value);
      OtherTransactions(c.meanwhile);
      assert [rollback.value][..0] == [];
      if aborted {
        return false;
      }
      if c.cancelledWhileConnecting {
        CancelAttempt([c.undo]);
      }
      if !c.connects || aborted || !c.navigates {
        return false;
      }
      ok := CommitAttempt();
    }

    /** What other transactions of the mutation queue wrote. */
    method OtherTransactions(writes: seq<Entry>)
      modifies store
      ensures store.values == Overwritten(old(store.values), writes)
    {
      for n := 0 to |writes|
        invariant store.values == Overwritten(old(store.values), writes[..n])
      {
        var _ := store.SetItem(writes[n], Completes);
        assert writes[..n + 1][..n] == writes[..n];
      }
      assert writes[..|writes|] == writes;
    }
  }

  /** The store after rolling back these attempts, the newest first. */
  function Unwound(store: Store, rollbacks: seq<Rollback>, undos: seq<seq<Outcome>>): Store
    decreases |rollbacks|
  {
    if rollbacks == [] then store
    else
      var last := |rollbacks| - 1;
      Unwound(RolledBack(store, rollbacks[last], if last < |undos| then undos[last] else []), rollbacks[..last], undos)
  }

  // ------------------------------------------------------ what a run leaves

  /** The compensating writes of a run that did not commit: the store they start from,
      what they write, and how each ends. */
  datatype Compensation = Compensation(left: Store, entries: seq<Entry>, outcomes: seq<Outcome>)

  function CompensationOf(store: Store, c: Course): Compensation {
    if c.cancelledBefore || c.pairing.None? then Compensation(store, [], [])
    else
      var p := c.pairing.value;
      var s := StoreToken(store, p.target, p.token, p.plan, p.repair);
      if s.rollback.None?
      then Compensation(Forward(store, p.target, p.token, p.plan).store, Snapshot(store, TokenKeys(p.target)), p.repair)
      else
        var left := Overwritten(s.store, c.meanwhile);
        Compensation(left, StillOwned(left, s.rollback.value, s.rollback.value.before), c.undo)
  }

  lemma UncommittedIsCompensated(store: Store, c: Course)
    requires !Finished(store, c).committed
    ensures var k := CompensationOf(store, c);
            Finished(store, c).store == Restored(k.left, k.entries, k.outcomes)
  {
  }

  /** A compensating write reaches the store, whether or not it is reported as failed. */
  predicate Lands(outcomes: seq<Outcome>, i: nat) {
    i < |outcomes| ==> outcomes[i].Completes? || outcomes[i].wrote
  }

  predicate DistinctKeys(entries: seq<Entry>) {
    forall i, j :: 0 <= i < j < |entries| ==> entries[i].key != entries[j].key
  }

  lemma {:induction false} RestoredElsewhere(store: Store, entries: seq<Entry>, outcomes: seq<Outcome>, key: Key)
    requires forall i :: 0 <= i < |entries| ==> entries[i].key != key
    ensures Get(Restored(store, entries, outcomes), key) == Get(store, key)
    decreases |entries|
  {
    if entries != [] {
      RestoredElsewhere(store, entries[..|entries| - 1], outcomes, key);
    }
  }

  lemma {:induction false} RestoredWhereItLands(store: Store, entries: seq<Entry>, outcomes: seq<Outcome>, i: nat)
    requires DistinctKeys(entries) && i < |entries|
    ensures Get(Restored(store, entries, outcomes), entries[i].key)
         == if Lands(outcomes, i) then entries[i].value else Get(store, entries[i].key)
    decreases |entries|
  {
    var last := |entries| - 1;
    if i == last {
      RestoredElsewhere(store, entries[..last], outcomes, entries[i].key);
    } else {
      RestoredWhereItLands(store, entries[..last], outcomes, i);
    }
  }

  lemma TokenKeysAreDistinct(t: Target)
    ensures forall i, j :: 0 <= i < j < |TokenKeys(t)| ==> TokenKeys(t)[i] != TokenKeys(t)[j]
  {
  }

  lemma {:induction false} OwnedAreDistinct(store: Store, r: Rollback, entries: seq<Entry>)
    requires DistinctKeys(entries)
    ensures DistinctKeys(StillOwned(store, r, entries))
    ensures forall e :: e in StillOwned(store, r, entries) <==> e in entries && Get(store, e.key) == Written(r, e.key)
    decreases |entries|
  {
    if entries != [] {
      OwnedAreDistinct(store, r, entries[..|entries| - 1]);
    }
  }

  /** The compensating writes are one per key, each with what the key held before the
      attempt, and they name every key the attempt changed and still owns. */
  lemma CompensationFacts(store: Store, c: Course)
    requires !Finished(store, c).committed
    ensures var k := CompensationOf(store, c);
            && DistinctKeys(k.entries)
            && (forall i :: 0 <= i < |k.entries| ==> k.entries[i].value == Get(store, k.entries[i].key))
  {
    if !c.cancelledBefore && c.pairing.Some? {
      var p := c.pairing.value;
      var s := StoreToken(store, p.target, p.token, p.plan, p.repair);
      TokenKeysAreDistinct(p.target);
      var before := Snapshot(store, TokenKeys(p.target));
      assert DistinctKeys(before);
      if s.rollback.Some? {
        OwnedOfSnapshot(store, Overwritten(s.store, c.meanwhile), s.rollback.value, TokenKeys(p.target));
      }
    }
  }

  lemma OwnedOfSnapshot(was: Store, left: Store, r: Rollback, keys: seq<Key>)
    requires DistinctKeys(Snapshot(was, keys))
    ensures DistinctKeys(StillOwned(left, r, Snapshot(was, keys)))
    ensures forall i :: 0 <= i < |StillOwned(left, r, Snapshot(was, keys))| ==>
              var e := StillOwned(left, r, Snapshot(was, keys))[i]; e.value == Get(was, e.key)
  {
    var owned := StillOwned(left, r, Snapshot(was, keys));
    OwnedAreDistinct(left, r, Snapshot(was, keys));
    forall i | 0 <= i < |owned| ensures owned[i].value == Get(was, owned[i].key) {
      assert owned[i] in Snapshot(was, keys);
    }
  }

  /** What a run that did not commit leaves, for every outcome of its compensating writes
      and whatever other transactions wrote meanwhile: a key whose compensating write
      lands holds what it held before the attempt, every other key what it held when the
      compensation began. */
  lemma UncommittedLeaves(store: Store, c: Course, i: nat)
    requires !Finished(store, c).committed
    ensures var k := CompensationOf(store, c);
            i < |k.entries| ==>
              Get(Finished(store, c).store, k.entries[i].key)
                == Get(if Lands(k.outcomes, i) then store else k.left, k.entries[i].key)
  {
    UncommittedIsCompensated(store, c);
    CompensationFacts(store, c);
    var k := CompensationOf(store, c);
    if i < |k.entries| {
      RestoredWhereItLands(k.left, k.entries, k.outcomes, i);
    }
  }

  /** Without other writers, a run that did not commit leaves the store as it was if and
      only if every compensating write of a key that is not already back lands. */
  lemma UncommittedRestoresIff(store: Store, c: Course)
    requires !Finished(store, c).committed && c.meanwhile == []
    ensures var k := CompensationOf(store, c);
            Finished(store, c).store == store <==>
            forall i :: 0 <= i < |k.entries| ==>
              Lands(k.outcomes, i) || Get(k.left, k.entries[i].key) == Get(store, k.entries[i].key)
  {
    var k, end := CompensationOf(store, c), Finished(store, c).store;
    forall i: nat
      ensures i < |k.entries| ==>
                Get(end, k.entries[i].key) == Get(if Lands(k.outcomes, i) then store else k.left, k.entries[i].key)
    {
      UncommittedLeaves(store, c, i);
    }
    if forall i :: 0 <= i < |k.entries| ==>
         Lands(k.outcomes, i) || Get(k.left, k.entries[i].key) == Get(store, k.entries[i].key) {
      forall key
        ensures Get(end, key) == Get(store, key)
      {
        if i :| 0 <= i < |k.entries| && k.entries[i].key == key {
          UncommittedLeaves(store, c, i);
        } else {
          UncommittedIsCompensated(store, c);
          RestoredElsewhere(k.left, k.entries, k.outcomes, key);
          UnnamedKeysAreUntouched(store, c, key);
        }
      }
      SameStore(end, store);
    }
  }

  /** A key without a compensating write still holds what it held before the attempt. */
  lemma UnnamedKeysAreUntouched(store: Store, c: Course, key: Key)
    requires !Finished(store, c).committed && c.meanwhile == []
    requires forall e :: e in CompensationOf(store, c).entries ==> e.key != key
    ensures Get(CompensationOf(store, c).left, key) == Get(store, key)
  {
    if !c.cancelledBefore && c.pairing.Some? {
      var p := c.pairing.value;
      var s := StoreToken(store, p.target, p.token, p.plan, p.repair);
      if s.rollback.None? {
        SnapshotNames(store, TokenKeys(p.target), key);
        ForwardTouchesItsKeys(store, p.target, p.token, p.plan, key);
      } else {
        assert Overwritten(s.store, c.meanwhile) == s.store;
        UnownedKeysAreUntouched(store, p, key);
      }
    }
  }

  lemma UnownedKeysAreUntouched(store: Store, p: Pairing, key: Key)
    requires StoreToken(store, p.target, p.token, p.plan, p.repair).rollback.Some?
    requires var s := StoreToken(store, p.target, p.token, p.plan, p.repair);
             forall e :: e in StillOwned(s.store, s.rollback.value, s.rollback.value.before) ==> e.key != key
    ensures Get(StoreToken(store, p.target, p.token, p.plan, p.repair).store, key) == Get(store, key)
  {
    var s := StoreToken(store, p.target, p.token, p.plan, p.repair);
    var before := Snapshot(store, TokenKeys(p.target));
    SnapshotNames(store, TokenKeys(p.target), key);
    StoredTokenIsEverywhere(store, p.target, p.token, p.plan, p.repair, key);
    TokenKeysAreDistinct(p.target);
    OwnedAreDistinct(s.store, s.rollback.value, before);
    var e := Entry(key, Get(store, key));
    assert e in StillOwned(s.store, s.rollback.value, before)
      <==> Get(s.store, key) == Written(s.rollback.value, key) && e in before;
  }

  lemma SnapshotNames(store: Store, keys: seq<Key>, key: Key)
    ensures key in keys ==> Entry(key, Get(store, key)) in Snapshot(store, keys)
  {
    if j :| 0 <= j < |keys| && keys[j] == key {
      assert Snapshot(store, keys)[j] == Entry(key, Get(store, key));
    }
  }

  /** The attempt's token was stored and is still there to roll back or commit. */
  predicate Stores(store: Store, c: Course) {
    && !c.cancelledBefore && c.pairing.Some?
    && var p := c.pairing.value;
       StoreToken(store, p.target, p.token, p.plan, p.repair).rollback.Some?
  }

  /** What the attempt writes under a key, if the key is one of its own. */
  predicate IsOwnWrite(p: Pairing, key: Key, value: Option<Token>) {
    key in TokenKeys(p.target) && value == if key == LegacyToken then None else Some(p.token)
  }

  /** What other transactions last left under a key they wrote. */
  function LeftByOthers(c: Course, key: Key): Option<Token> {
    Get(Overwritten(map[], c.meanwhile), key)
  }

  lemma CommittedKeeps(store: Store, c: Course, key: Key)
    requires Finished(store, c).committed
    ensures Stores(store, c)
    ensures Get(Finished(store, c).store, key) ==
            if key in Keys(c.meanwhile) then LeftByOthers(c, key)
            else if key in TokenKeys(c.pairing.value.target)
            then (if key == LegacyToken then None else Some(c.pairing.value.token))
            else Get(store, key)
  {
    var p := c.pairing.value;
    var s := StoreToken(store, p.target, p.token, p.plan, p.repair);
    OverwrittenAt(s.store, c.meanwhile, key);
    StoredTokenIsEverywhere(store, p.target, p.token, p.plan, p.repair, key);
  }

  lemma StoredButUncommittedKeeps(store: Store, c: Course, key: Key)
    requires Stores(store, c) && !Finished(store, c).committed && AllComplete(c.undo)
    ensures Get(Finished(store, c).store, key) ==
            if key in Keys(c.meanwhile) && !IsOwnWrite(c.pairing.value, key, LeftByOthers(c, key))
            then LeftByOthers(c, key) else Get(store, key)
  {
    var p := c.pairing.value;
    var s := StoreToken(store, p.target, p.token, p.plan, p.repair);
    OverwrittenAt(s.store, c.meanwhile, key);
    StoredTokenIsEverywhere(store, p.target, p.token, p.plan, p.repair, key);
    RollbackIsCompareAndRestore(Overwritten(s.store, c.meanwhile), store, p.target, p.token, c.undo, key);
  }

  /** Pairing is all or nothing wherever it fails or is cancelled, when its compensating
      writes succeed. Under every key: what another transaction wrote meanwhile survives,
      except that a run that does not commit takes back a value equal to its own; where
      nobody else wrote, a run that commits left its token, and any other one left what
      was there before. */
  lemma PairingIsAllOrNothing(store: Store, c: Course, key: Key)
    requires AllComplete(c.undo) && (c.pairing.Some? ==> AllComplete(c.pairing.value.repair))
    ensures var e := Finished(store, c);
            && (e.committed ==> Stores(store, c))
            && Get(e.store, key) ==
                 if Stores(store, c) && key in Keys(c.meanwhile)
                    && (e.committed || !IsOwnWrite(c.pairing.value, key, LeftByOthers(c, key)))
                 then LeftByOthers(c, key)
                 else if e.committed && key in TokenKeys(c.pairing.value.target)
                 then (if key == LegacyToken then None else Some(c.pairing.value.token))
                 else Get(store, key)
  {
    if Finished(store, c).committed {
      CommittedKeeps(store, c, key);
    } else if Stores(store, c) {
      StoredButUncommittedKeeps(store, c, key);
    } else if !c.cancelledBefore && c.pairing.Some? {
      var p := c.pairing.value;
      FailedStoreChangesNothing(store, p.target, p.token, p.plan, p.repair);
    }
  }

  /** A flow commits if and only if nobody cancels it before its end, its pairing stores
      the token, and the connection and the navigation succeed. */
  lemma CommitsIff(store: Store, c: Course)
    ensures Finished(store, c).committed <==>
            && Stores(store, c) && !c.cancelledAfterStore && !c.cancelledWhileConnecting && c.connects && c.navigates
  {
  }

  function Keys(writes: seq<Entry>): set<Key> { set w | w in writes :: w.key }

  lemma {:induction false} OverwrittenAt(store: Store, writes: seq<Entry>, key: Key)
    ensures Get(Overwritten(store, writes), key)
         == if key in Keys(writes) then Get(Overwritten(map[], writes), key) else Get(store, key)
    decreases |writes|
  {
    if writes != [] {
      var last := |writes| - 1;
      assert writes == writes[..last] + [writes[last]];
      OverwrittenAt(store, writes[..last], key);
    }
  }
}

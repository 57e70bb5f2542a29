/** What credential transactions and their rollbacks guarantee. */
module CredentialsHistory {
  import opened Wrappers
  import opened Credentials

  lemma SameStore(a: Store, b: Store)
    requires forall key :: Get(a, key) == Get(b, key)
    ensures a == b
  {
    forall key
      ensures key in a <==> key in b
      ensures key in a && key in b ==> a[key] == b[key]
    {
      assert Get(a, key) == Get(b, key);
    }
  }

  lemma {:induction false} RestoredFromSnapshot(store: Store, was: Store, keys: seq<Key>, outcomes: seq<Outcome>, key: Key)
    requires AllComplete(outcomes)
    ensures Get(Restored(store, Snapshot(was, keys), outcomes), key)
         == if key in keys then Get(was, key) else Get(store, key)
    decreases |keys|
  {
    if keys != [] {
      var last := |keys| - 1;
      assert Snapshot(was, keys)[..last] == Snapshot(was, keys[..last]);
      assert keys == keys[..last] + [keys[last]];
      RestoredFromSnapshot(store, was, keys[..last], outcomes, key);
    }
  }

  /** A repair from a snapshot undoes any change to the snapshot's keys. */
  lemma RepairRestores(was: Store, now: Store, keys: seq<Key>, outcomes: seq<Outcome>)
    requires AllComplete(outcomes)
    requires forall key :: key !in keys ==> Get(now, key) == Get(was, key)
    ensures Restored(now, Snapshot(was, keys), outcomes) == was
  {
    forall key
      ensures Get(Restored(now, Snapshot(was, keys), outcomes), key) == Get(was, key)
    {
      RestoredFromSnapshot(now, was, keys, outcomes, key);
    }
    SameStore(Restored(now, Snapshot(was, keys), outcomes), was);
  }

  lemma TokenKeyMembers(t: Target)
    ensures forall key :: key in TokenKeys(t) <==>
      || key == EndpointToken(t.host, t.port) || key == LegacyToken
      || (t.hostKey.Some? && key == IdentityToken(t.hostKey.value))
  {
    assert TokenKeys(t)[0] == EndpointToken(t.host, t.port);
    assert TokenKeys(t)[|TokenKeys(t)| - 1] == LegacyToken;
    if t.hostKey.Some? {
      assert TokenKeys(t)[1] == IdentityToken(t.hostKey.value);
    }
  }

  lemma ForwardTouchesItsKeys(store: Store, t: Target, token: Token, plan: Plan, key: Key)
    requires key !in TokenKeys(t)
    ensures Get(Forward(store, t, token, plan).store, key) == Get(store, key)
  {
    TokenKeyMembers(t);
  }

  /** A failed `storeToken` whose compensating writes succeed leaves every key as it was:
      whichever write failed, whether or not a failed write reached the store, and at
      whichever check the attempt was aborted. */
  lemma FailedStoreChangesNothing(store: Store, t: Target, token: Token, plan: Plan, repair: seq<Outcome>)
    requires StoreToken(store, t, token, plan, repair).rollback.None? && AllComplete(repair)
    ensures StoreToken(store, t, token, plan, repair).store == store
  {
    var p := Forward(store, t, token, plan);
    forall key | key !in TokenKeys(t)
      ensures Get(p.store, key) == Get(store, key)
    {
      ForwardTouchesItsKeys(store, t, token, plan, key);
    }
    RepairRestores(store, p.store, TokenKeys(t), repair);
  }

  /** A `storeToken` that succeeds left its token under the endpoint and the identity, no
      legacy token, and nothing else changed. */
  lemma StoredTokenIsEverywhere(store: Store, t: Target, token: Token, plan: Plan, repair: seq<Outcome>, key: Key)
    requires StoreToken(store, t, token, plan, repair).rollback.Some?
    ensures var s := StoreToken(store, t, token, plan, repair);
            && s.rollback.value == Rollback(Snapshot(store, TokenKeys(t)), token)
            && Get(s.store, key) == if key in TokenKeys(t) then Written(s.rollback.value, key) else Get(store, key)
  {
    TokenKeyMembers(t);
  }

  // -------------------------------------------------------------- rollbacks

  lemma RestoredLast(store: Store, entries: seq<Entry>, e: Entry, outcomes: seq<Outcome>)
    requires AllComplete(outcomes)
    ensures Restored(store, entries + [e], outcomes) == Put(Restored(store, entries, outcomes), e)
  {
    assert (entries + [e])[..|entries|] == entries;
  }

  function OwnedOf(store: Store, was: Store, keys: seq<Key>, token: Token): seq<Entry> {
    StillOwned(store, Rollback(Snapshot(was, keys), token), Snapshot(was, keys))
  }

  lemma OwnedOneMore(store: Store, was: Store, keys: seq<Key>, token: Token)
    requires keys != []
    ensures var last := |keys| - 1;
            OwnedOf(store, was, keys, token) ==
              OwnedOf(store, was, keys[..last], token)
              + if Get(store, keys[last]) == Written(Rollback([], token), keys[last])
                then [Entry(keys[last], Get(was, keys[last]))] else []
  {
    var last := |keys| - 1;
    var r, q := Rollback(Snapshot(was, keys), token), Rollback(Snapshot(was, keys[..last]), token);
    assert r.before[..last] == q.before && r.before[last] == Entry(keys[last], Get(was, keys[last]));
    SameOwned(store, r, q, q.before);
  }

  lemma {:induction false} OwnedRestored(store: Store, was: Store, keys: seq<Key>, token: Token, outcomes: seq<Outcome>, key: Key)
    requires AllComplete(outcomes)
    ensures Get(Restored(store, OwnedOf(store, was, keys, token), outcomes), key) == (
              if key in keys && Get(store, key) == Written(Rollback([], token), key) then Get(was, key) else Get(store, key))
    decreases |keys|
  {
    if keys != [] {
      var last := |keys| - 1;
      OwnedRestored(store, was, keys[..last], token, outcomes, key);
      LastKeyRestored(store, was, keys, token, outcomes, key);
      InFrontOrLast(keys, key);
    }
  }

  lemma InFrontOrLast(keys: seq<Key>, key: Key)
    requires keys != []
    ensures key in keys <==> key in keys[..|keys| - 1] || key == keys[|keys| - 1]
  {
    assert keys == keys[..|keys| - 1] + [keys[|keys| - 1]];
  }

  lemma LastKeyRestored(store: Store, was: Store, keys: seq<Key>, token: Token, outcomes: seq<Outcome>, key: Key)
    requires AllComplete(outcomes) && keys != []
    ensures var last := |keys| - 1;
            Get(Restored(store, OwnedOf(store, was, keys, token), outcomes), key) == (
              if key == keys[last] && Get(store, key) == Written(Rollback([], token), key) then Get(was, key)
              else Get(Restored(store, OwnedOf(store, was, keys[..last], token), outcomes), key))
  {
    var last := |keys| - 1;
    OwnedOneMore(store, was, keys, token);
    RestoredOneMore(store, OwnedOf(store, was, keys[..last], token), OwnedOf(store, was, keys, token),
                    Entry(keys[last], Get(was, keys[last])),
                    Get(store, keys[last]) == Written(Rollback([], token), keys[last]), outcomes);
  }

  lemma RestoredOneMore(store: Store, owned: seq<Entry>, more: seq<Entry>, e: Entry, owns: bool, outcomes: seq<Outcome>)
    requires AllComplete(outcomes) && more == owned + if owns then [e] else []
    ensures Restored(store, more, outcomes)
         == if owns then Put(Restored(store, owned, outcomes), e) else Restored(store, owned, outcomes)
  {
    if owns {
      RestoredLast(store, owned, e, outcomes);
    } else {
      assert more == owned;
    }
  }

  lemma RolledBackAt(store: Store, was: Store, keys: seq<Key>, token: Token, outcomes: seq<Outcome>, key: Key)
    requires AllComplete(outcomes)
    ensures var r := Rollback(Snapshot(was, keys), token);
            Get(Restored(store, StillOwned(store, r, r.before), outcomes), key) == (
              if key in keys && Get(store, key) == Written(r, key) then Get(was, key) else Get(store, key))
  {
    OwnedRestored(store, was, keys, token, outcomes, key);
  }

  lemma {:induction false} SameOwned(store: Store, r: Rollback, q: Rollback, entries: seq<Entry>)
    requires r.token == q.token
    ensures StillOwned(store, r, entries) == StillOwned(store, q, entries)
    decreases |entries|
  {
    if entries != [] {
      SameOwned(store, r, q, entries[..|entries| - 1]);
    }
  }

  /** A rollback restores a key exactly when it still holds what its attempt wrote: a
      newer token, or a newer legacy value, survives. */
  lemma RollbackIsCompareAndRestore(now: Store, was: Store, t: Target, token: Token, outcomes: seq<Outcome>, key: Key)
    requires AllComplete(outcomes)
    ensures var r := Rollback(Snapshot(was, TokenKeys(t)), token);
            Get(RolledBack(now, r, outcomes), key) == (
              if key in TokenKeys(t) && Get(now, key) == Written(r, key) then Get(was, key) else Get(now, key))
  {
    RolledBackAt(now, was, TokenKeys(t), token, outcomes, key);
  }

  /** Rolling back right after storing gives the store back. */
  lemma RollbackUndoesStore(store: Store, t: Target, token: Token, plan: Plan, repair: seq<Outcome>, outcomes: seq<Outcome>)
    requires StoreToken(store, t, token, plan, repair).rollback.Some? && AllComplete(outcomes)
    ensures var s := StoreToken(store, t, token, plan, repair);
            RolledBack(s.store, s.rollback.value, outcomes) == store
  {
    var s := StoreToken(store, t, token, plan, repair);
    forall key
      ensures Get(RolledBack(s.store, s.rollback.value, outcomes), key) == Get(store, key)
    {
      StoredTokenIsEverywhere(store, t, token, plan, repair, key);
      RollbackIsCompareAndRestore(s.store, store, t, token, outcomes, key);
    }
    SameStore(RolledBack(s.store, s.rollback.value, outcomes), store);
  }

  datatype Pairing = Pairing(target: Target, token: Token, plan: Plan, repair: seq<Outcome>)

  /** Attempts store one after the other; those that succeeded are then rolled back, the
      newest first. */
  function StoredThenUndone(store: Store, attempts: seq<Pairing>): Store
    decreases attempts
  {
    if attempts == [] then store
    else
      var s := StoreToken(store, attempts[0].target, attempts[0].token, attempts[0].plan, attempts[0].repair);
      var rest := StoredThenUndone(s.store, attempts[1..]);
      if s.rollback.Some? then RolledBack(rest, s.rollback.value, []) else rest
  }

  /** Any number of attempts, failed or not, cancelled newest first, leave the very first
      store. */
  lemma {:induction false} NewestFirstRestoresEverything(store: Store, attempts: seq<Pairing>)
    requires forall i :: 0 <= i < |attempts| ==> AllComplete(attempts[i].repair)
    ensures StoredThenUndone(store, attempts) == store
    decreases attempts
  {
    if attempts != [] {
      var a := attempts[0];
      var s := StoreToken(store, a.target, a.token, a.plan, a.repair);
      NewestFirstRestoresEverything(s.store, attempts[1..]);
      if s.rollback.Some? {
        RollbackUndoesStore(store, a.target, a.token, a.plan, a.repair, []);
      } else {
        FailedStoreChangesNothing(store, a.target, a.token, a.plan, a.repair);
      }
    }
  }

  // ----------------------------------------------- cancelling oldest first

  /** Rolling back the older of two attempts first: on a key they share, either both
      wrote the same token, or the older one changed nothing there. */
  predicate OldestFirstIsSafe(store: Store, a: Target, aToken: Token, b: Target, bToken: Token) {
    && (a.host == b.host && a.port == b.port ==>
          aToken == bToken || Get(store, EndpointToken(a.host, a.port)) == Some(aToken))
    && (a.hostKey.Some? && a.hostKey == b.hostKey ==>
          aToken == bToken || Get(store, IdentityToken(a.hostKey.value)) == Some(aToken))
  }

  function OldestFirst(store: Store, a: Pairing, b: Pairing): Store
    requires StoreToken(store, a.target, a.token, a.plan, a.repair).rollback.Some?
    requires StoreToken(StoreToken(store, a.target, a.token, a.plan, a.repair).store, b.target, b.token, b.plan, b.repair).rollback.Some?
  {
    var first := StoreToken(store, a.target, a.token, a.plan, a.repair);
    var second := StoreToken(first.store, b.target, b.token, b.plan, b.repair);
    RolledBack(RolledBack(second.store, first.rollback.value, []), second.rollback.value, [])
  }

  predicate RestoredAt(store: Store, a: Pairing, b: Pairing, key: Key) {
    || key !in TokenKeys(a.target) || key !in TokenKeys(b.target) || key == LegacyToken
    || a.token == b.token || Get(store, key) == Some(a.token)
  }

  lemma OldestFirstAt(store: Store, a: Pairing, b: Pairing, key: Key)
    requires StoreToken(store, a.target, a.token, a.plan, a.repair).rollback.Some?
    requires StoreToken(StoreToken(store, a.target, a.token, a.plan, a.repair).store, b.target, b.token, b.plan, b.repair).rollback.Some?
    ensures Get(OldestFirst(store, a, b), key) == Get(store, key) <==> RestoredAt(store, a, b, key)
  {
    var first := StoreToken(store, a.target, a.token, a.plan, a.repair);
    var second := StoreToken(first.store, b.target, b.token, b.plan, b.repair);
    StoredTokenIsEverywhere(store, a.target, a.token, a.plan, a.repair, key);
    StoredTokenIsEverywhere(first.store, b.target, b.token, b.plan, b.repair, key);
    RollbackIsCompareAndRestore(second.store, store, a.target, a.token, [], key);
    RollbackIsCompareAndRestore(RolledBack(second.store, first.rollback.value, []), first.store, b.target, b.token, [], key);
  }

  /** The first store comes back exactly under that condition, which can be checked
      before the attempts run. */
  lemma OldestFirstRestoresIff(store: Store, a: Pairing, b: Pairing)
    requires StoreToken(store, a.target, a.token, a.plan, a.repair).rollback.Some?
    requires StoreToken(StoreToken(store, a.target, a.token, a.plan, a.repair).store, b.target, b.token, b.plan, b.repair).rollback.Some?
    ensures OldestFirst(store, a, b) == store <==> OldestFirstIsSafe(store, a.target, a.token, b.target, b.token)
  {
    TokenKeyMembers(a.target);
    TokenKeyMembers(b.target);
    if OldestFirstIsSafe(store, a.target, a.token, b.target, b.token) {
      forall key
        ensures Get(OldestFirst(store, a, b), key) == Get(store, key)
      {
        OldestFirstAt(store, a, b, key);
      }
      SameStore(OldestFirst(store, a, b), store);
    } else {
      OldestFirstAt(store, a, b, EndpointToken(a.target.host, a.target.port));
      if a.target.hostKey.Some? {
        OldestFirstAt(store, a, b, IdentityToken(a.target.hostKey.value));
      }
    }
  }

  // ---------------------------------------------- clearing and migrating

  lemma ClearKeyMembers(c: Credential)
    ensures forall key :: key in ClearKeys(c) <==>
      || key == EndpointToken(c.target.host, c.target.port)
      || (c.target.hostKey.Some? && key == IdentityToken(c.target.hostKey.value))
  {
    assert ClearKeys(c)[0] == EndpointToken(c.target.host, c.target.port);
    if c.target.hostKey.Some? {
      assert ClearKeys(c)[1] == IdentityToken(c.target.hostKey.value);
    }
  }

  /** A clear that succeeds removes the token where it is stored and nothing else: a newer
      token under the same key stays. */
  lemma ClearRemovesOnlyItsToken(store: Store, c: Credential, endpoint: Outcome, identity: Outcome, late: Late, repair: seq<Outcome>, key: Key)
    requires ClearCredential(store, c, endpoint, identity, late, repair).ok
    ensures Get(ClearCredential(store, c, endpoint, identity, late, repair).store, key)
         == if key in ClearKeys(c) && Get(store, key) == Some(c.token) then None else Get(store, key)
  {
    ClearKeyMembers(c);
  }

  /** A clear meant for one token, after a newer pairing stored a token for the same Host:
      if the tokens differ the clear has nothing to do, whatever its writes would end in;
      if they are the same and it succeeds, no key holds the token any more and nothing
      else changed. */
  lemma ClearAfterStore(
    store: Store, t: Target, token: Token, plan: Plan, repair: seq<Outcome>,
    rejected: Token, endpoint: Outcome, identity: Outcome, late: Late, undo: seq<Outcome>, key: Key)
    requires StoreToken(store, t, token, plan, repair).rollback.Some?
    ensures var s := StoreToken(store, t, token, plan, repair).store;
            var cleared := ClearCredential(s, Credential(t, rejected), endpoint, identity, late, undo);
            && (rejected != token ==> cleared == Progress(s, true))
            && (rejected == token && cleared.ok ==>
                  Get(cleared.store, key) == if key in ClearKeys(Credential(t, rejected)) then None else Get(s, key))
  {
    var s, c := StoreToken(store, t, token, plan, repair).store, Credential(t, rejected);
    TokenKeyMembers(t);
    ClearKeyMembers(c);
    StoredTokenIsEverywhere(store, t, token, plan, repair, EndpointToken(t.host, t.port));
    if t.hostKey.Some? {
      StoredTokenIsEverywhere(store, t, token, plan, repair, IdentityToken(t.hostKey.value));
    }
    if ClearCredential(s, c, endpoint, identity, late, undo).ok {
      ClearRemovesOnlyItsToken(s, c, endpoint, identity, late, undo, key);
    }
  }

  /** Both keys still hold the token, so a clear deletes them at the same time. */
  predicate DeletesBoth(store: Store, c: Credential) {
    && c.target.hostKey.Some?
    && Get(store, EndpointToken(c.target.host, c.target.port)) == Some(c.token)
    && Get(store, IdentityToken(c.target.hostKey.value)) == Some(c.token)
  }

  /** A clear that deletes at most one key leaves everything as it was when it fails and
      its repair succeeds. */
  lemma SingleFailedClearChangesNothing(
    store: Store, c: Credential, endpoint: Outcome, identity: Outcome, late: Late, repair: seq<Outcome>)
    requires !ClearCredential(store, c, endpoint, identity, late, repair).ok && AllComplete(repair)
    requires !DeletesBoth(store, c)
    ensures ClearCredential(store, c, endpoint, identity, late, repair).store == store
  {
    ClearKeyMembers(c);
    var epKey := EndpointToken(c.target.host, c.target.port);
    var epIssued := Get(store, epKey) == Some(c.token);
    if c.target.hostKey.None? {
      RepairRestores(store, Write(store, Entry(epKey, None), endpoint), ClearKeys(c), repair);
    } else {
      var idKey := IdentityToken(c.target.hostKey.value);
      var idIssued := Get(store, idKey) == Some(c.token);
      var epLate := late == EndpointLate && idIssued && identity.Fails?;
      var idLate := late == IdentityLate && epIssued && endpoint.Fails?;
      var early := Deleted(Deleted(store, epKey, epIssued && !epLate, endpoint), idKey, idIssued && !idLate, identity);
      RepairRestores(store, early, ClearKeys(c), repair);
    }
  }

  /** Known before the call: every failing clear whose repair succeeds changes nothing,
      whatever order its writes land in, if and only if at most one key holds the token. */
  lemma FailedClearChangesNothingIff(store: Store, c: Credential)
    ensures (forall endpoint, identity, late, repair ::
               !ClearCredential(store, c, endpoint, identity, late, repair).ok && AllComplete(repair) ==>
                 ClearCredential(store, c, endpoint, identity, late, repair).store == store)
            <==> !DeletesBoth(store, c)
  {
    if DeletesBoth(store, c) {
      var p := ClearCredential(store, c, Fails(false), Completes, IdentityLate, []);
      assert !p.ok && AllComplete([]) && p.store != store;
    } else {
      forall endpoint, identity, late, repair |
        !ClearCredential(store, c, endpoint, identity, late, repair).ok && AllComplete(repair)
        ensures ClearCredential(store, c, endpoint, identity, late, repair).store == store
      {
        SingleFailedClearChangesNothing(store, c, endpoint, identity, late, repair);
      }
    }
  }

  /** A credential verified by its identity and then rejected by the Host, as it is stored
      after pairing: its failed clear leaves the endpoint's token and loses the other. */
  lemma FailedClearLosesTheIdentityToken()
    ensures var c := Credential(Target("host", 1, Some("key")), "token");
            var store := map[EndpointToken("host", 1) := "token", IdentityToken("key") := "token"];
            ClearCredential(store, c, Fails(false), Completes, IdentityLate, [])
              == Progress(map[EndpointToken("host", 1) := "token"], false)
  {
    var c := Credential(Target("host", 1, Some("key")), "token");
    var store := map[EndpointToken("host", 1) := "token", IdentityToken("key") := "token"];
    ClearKeyMembers(c);
    RepairRestores(store, store, ClearKeys(c), []);
    assert Deleted(store, EndpointToken("host", 1), true, Fails(false)) == store;
    assert store - {IdentityToken("key")} == map[EndpointToken("host", 1) := "token"];
  }

  /** Taking over a credential either leaves the token under both keys, or, when its
      repair succeeds, changes nothing. */
  lemma MigrationIsAllOrNothing(
    store: Store, t: Target, token: Token, aborted: bool, current: bool,
    identity: Outcome, endpoint: Outcome, pinned: bool, repair: seq<Outcome>, key: Key)
    requires t.hostKey.Some? && AllComplete(repair)
    ensures var p := MigrateCredential(store, t, token, aborted, current, identity, endpoint, pinned, repair);
            if p.ok then
              Get(p.store, key) == if key == IdentityToken(t.hostKey.value) || key == EndpointToken(t.host, t.port)
                                   then Some(token) else Get(store, key)
            else p.store == store
  {
    var idKey, epKey := IdentityToken(t.hostKey.value), EndpointToken(t.host, t.port);
    var p1 := TriedIfNeeded(Progress(store, true), Get(store, idKey) != Some(token), Entry(idKey, Some(token)), identity);
    var p2 := TriedIfNeeded(p1, Get(store, epKey) != Some(token), Entry(epKey, Some(token)), endpoint);
    assert [idKey, epKey][0] == idKey && [idKey, epKey][1] == epKey;
    RepairRestores(store, p2.store, [idKey, epKey], repair);
  }

  // ------------------------------------------------------ when they succeed

  /** Storing succeeds if and only if no abort check throws and every write completes; with
      a verified identity its key is written too and the pin is remembered. */
  lemma StoreSucceedsIff(store: Store, t: Target, token: Token, plan: Plan, repair: seq<Outcome>)
    ensures StoreToken(store, t, token, plan, repair).rollback.Some? <==>
            && plan.abortFrom > 4 && plan.endpoint == Completes && plan.legacy == Completes
            && (t.hostKey.Some? ==> plan.identity == Completes && plan.pinned)
  {
  }

  /** A clear succeeds if and only if every deletion that it starts completes; it starts
      one for each key that still holds its token. */
  lemma ClearSucceedsIff(
    store: Store, c: Credential, endpoint: Outcome, identity: Outcome, late: Late, repair: seq<Outcome>)
    ensures ClearCredential(store, c, endpoint, identity, late, repair).ok <==>
            && (Get(store, EndpointToken(c.target.host, c.target.port)) == Some(c.token) ==> endpoint == Completes)
            && (c.target.hostKey.Some? && Get(store, IdentityToken(c.target.hostKey.value)) == Some(c.token) ==>
                  identity == Completes)
  {
  }

  /** A takeover succeeds if and only if it is not aborted and either both aliases and the
      pin are current, or every write it needs completes and the pin is remembered. */
  lemma MigrationSucceedsIff(
    store: Store, t: Target, token: Token, aborted: bool, current: bool,
    identity: Outcome, endpoint: Outcome, pinned: bool, repair: seq<Outcome>)
    requires t.hostKey.Some?
    ensures var hasIdentity := Get(store, IdentityToken(t.hostKey.value)) == Some(token);
            var hasEndpoint := Get(store, EndpointToken(t.host, t.port)) == Some(token);
            MigrateCredential(store, t, token, aborted, current, identity, endpoint, pinned, repair).ok <==>
              && !aborted
              && (|| (hasIdentity && hasEndpoint && current)
                  || ((hasIdentity || identity == Completes) && (hasEndpoint || endpoint == Completes) && pinned))
  {
  }
}

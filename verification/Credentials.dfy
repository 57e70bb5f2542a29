/** Credential transactions of the viewer (apps/viewer-expo/src/pairing.ts). Every
    mutation runs alone in the mutation queue, so each is one step on the store; its
    writes may fail, and a failed write may or may not have reached the store. */
module Credentials {
  import opened Wrappers

  type Token = string

  datatype Key = EndpointToken(host: string, port: nat) | IdentityToken(hostKey: string) | LegacyToken

  type Store = map<Key, Token>

  /** How one write ends. */
  datatype Outcome = Completes | Fails(wrote: bool)

  datatype Entry = Entry(key: Key, value: Option<Token>)

  function Get(store: Store, key: Key): Option<Token> {
    if key in store then Some(store[key]) else None
  }

  function Put(store: Store, e: Entry): Store {
    if e.value.Some? then store[e.key := e.value.value] else store - {e.key}
  }

  function Write(store: Store, e: Entry, outcome: Outcome): Store {
    if outcome.Completes? || outcome.wrote then Put(store, e) else store
  }

  /** What the keys hold before a transaction. */
  function Snapshot(store: Store, keys: seq<Key>): seq<Entry> {
    seq(|keys|, i requires 0 <= i < |keys| => Entry(keys[i], Get(store, keys[i])))
  }

  /** The compensating writes of `rollbackValues`; missing outcomes complete. */
  function Restored(store: Store, entries: seq<Entry>, outcomes: seq<Outcome>): Store {
    if entries == [] then store
    else
      var last := |entries| - 1;
      Write(Restored(store, entries[..last], outcomes), entries[last],
            if last < |outcomes| then outcomes[last] else Completes)
  }

  predicate AllComplete(outcomes: seq<Outcome>) {
    forall i :: 0 <= i < |outcomes| ==> outcomes[i].Completes?
  }

  // ------------------------------------------------------------- storeToken

  datatype Target = Target(host: string, port: nat, hostKey: Option<string>)

  /** How the forward steps go: the first abort check that throws, and each write. */
  datatype Plan = Plan(abortFrom: nat, endpoint: Outcome, identity: Outcome, legacy: Outcome, pinned: bool)

  /** The rollback a successful `storeToken` hands back. */
  datatype Rollback = Rollback(before: seq<Entry>, token: Token)

  function TokenKeys(t: Target): seq<Key> {
    [EndpointToken(t.host, t.port)] + (if t.hostKey.Some? then [IdentityToken(t.hostKey.value)] else []) + [LegacyToken]
  }

  datatype Progress = Progress(store: Store, ok: bool)

  function Checked(p: Progress, aborted: bool): Progress {
    if aborted then p.(ok := false) else p
  }

  function Tried(p: Progress, e: Entry, outcome: Outcome): Progress {
    if p.ok then Progress(Write(p.store, e, outcome), outcome.Completes?) else p
  }

  /** The forward steps, with an abort check around each. */
  function Forward(store: Store, t: Target, token: Token, plan: Plan): Progress {
    var p0 := Checked(Progress(store, true), plan.abortFrom <= 0);
    var p1 := Checked(Tried(p0, Entry(EndpointToken(t.host, t.port), Some(token)), plan.endpoint), plan.abortFrom <= 1);
    var p2 := if t.hostKey.Some? then Tried(p1, Entry(IdentityToken(t.hostKey.value), Some(token)), plan.identity) else p1;
    var p3 := Tried(Checked(p2, plan.abortFrom <= 2), Entry(LegacyToken, None), plan.legacy);
    Checked(Checked(p3, plan.abortFrom <= 3), (t.hostKey.Some? && !plan.pinned) || plan.abortFrom <= 4)
  }

  datatype Stored = Stored(store: Store, rollback: Option<Rollback>)

  function StoreToken(store: Store, t: Target, token: Token, plan: Plan, repair: seq<Outcome>): Stored {
    var before := Snapshot(store, TokenKeys(t));
    var p := Forward(store, t, token, plan);
    if p.ok then Stored(p.store, Some(Rollback(before, token)))
    else Stored(Restored(p.store, before, repair), None)
  }

  /** What the attempt itself left under a key. */
  function Written(r: Rollback, key: Key): Option<Token> {
    if key == LegacyToken then None else Some(r.token)
  }

  /** Only keys that still hold what this attempt wrote are restored. */
  function StillOwned(store: Store, r: Rollback, entries: seq<Entry>): seq<Entry> {
    if entries == [] then []
    else
      var last := entries[|entries| - 1];
      StillOwned(store, r, entries[..|entries| - 1])
        + (if Get(store, last.key) == Written(r, last.key) then [last] else [])
  }

  function RolledBack(store: Store, r: Rollback, outcomes: seq<Outcome>): Store {
    Restored(store, StillOwned(store, r, r.before), outcomes)
  }

  // ------------------------------------------------ clearing and migrating

  datatype Credential = Credential(target: Target, token: Token)

  function ClearKeys(c: Credential): seq<Key> {
    [EndpointToken(c.target.host, c.target.port)]
      + (if c.target.hostKey.Some? then [IdentityToken(c.target.hostKey.value)] else [])
  }

  /** Both deletions start at once. When one fails, the repair starts although the other
      may still be on its way, and land after it. */
  datatype Late = Nothing | EndpointLate | IdentityLate

  function Deleted(store: Store, key: Key, issued: bool, outcome: Outcome): Store {
    if issued then Write(store, Entry(key, None), outcome) else store
  }

  function ClearCredential(
    store: Store, c: Credential, endpoint: Outcome, identity: Outcome, late: Late, repair: seq<Outcome>): Progress
  {
    var epKey := EndpointToken(c.target.host, c.target.port);
    var epIssued := Get(store, epKey) == Some(c.token);
    if c.target.hostKey.None? then
      if epIssued && endpoint.Fails?
      then Progress(Restored(Write(store, Entry(epKey, None), endpoint), Snapshot(store, ClearKeys(c)), repair), false)
      else Progress(Deleted(store, epKey, epIssued, Completes), true)
    else
      var idKey := IdentityToken(c.target.hostKey.value);
      var idIssued := Get(store, idKey) == Some(c.token);
      var epFails, idFails := epIssued && endpoint.Fails?, idIssued && identity.Fails?;
      if !epFails && !idFails
      then Progress(Deleted(Deleted(store, epKey, epIssued, Completes), idKey, idIssued, Completes), true)
      else
        var epLate, idLate := late == EndpointLate && idFails, late == IdentityLate && epFails;
        var early := Deleted(Deleted(store, epKey, epIssued && !epLate, endpoint), idKey, idIssued && !idLate, identity);
        var repaired := Restored(early, Snapshot(store, ClearKeys(c)), repair);
        Progress(Deleted(Deleted(repaired, epKey, epIssued && epLate, endpoint), idKey, idIssued && idLate, identity), false)
  }

  function TriedIfNeeded(p: Progress, needed: bool, e: Entry, outcome: Outcome): Progress {
    if needed then Tried(p, e, outcome) else p
  }

  /** A verified identity takes over its endpoint's credential; `pinned` tells whether
      the pin was remembered. */
  function MigrateCredential(
    store: Store, t: Target, token: Token, aborted: bool, current: bool,
    identity: Outcome, endpoint: Outcome, pinned: bool, repair: seq<Outcome>): Progress
    requires t.hostKey.Some?
  {
    var idKey, epKey := IdentityToken(t.hostKey.value), EndpointToken(t.host, t.port);
    var done := Get(store, idKey) == Some(token) && Get(store, epKey) == Some(token);
    if aborted then Progress(store, false)
    else if done && current then Progress(store, true)
    else
      var p1 := TriedIfNeeded(Progress(store, true), Get(store, idKey) != Some(token), Entry(idKey, Some(token)), identity);
      var p2 := TriedIfNeeded(p1, Get(store, epKey) != Some(token), Entry(epKey, Some(token)), endpoint);
      if p2.ok && pinned then p2
      else Progress(Restored(p2.store, Snapshot(store, [idKey, epKey]), repair), false)
  }

  // --------------------------------------------- the secure store, in place

  class SecureStore {
    var values: Store

    constructor ()
      ensures values == map[]
    {
      values := map[];
    }

    method SetItem(e: Entry, outcome: Outcome) returns (ok: bool)
      modifies this
      ensures values == Write(old(values), e, outcome) && (ok <==> outcome.Completes?)
    {
      if outcome.Completes? || outcome.wrote {
        if e.value.Some? {
          values := values[e.key := e.value.value];
        } else {
          values := values - {e.key};
        }
      }
      ok := outcome.Completes?;
    }

    method Read(keys: seq<Key>) returns (entries: seq<Entry>)
      ensures entries == Snapshot(values, keys)
    {
      entries := [];
      for n := 0 to |keys|
        invariant entries == Snapshot(values, keys[..n])
      {
        entries := entries + [Entry(keys[n], Get(values, keys[n]))];
        assert keys[..n + 1] == keys[..n] + [keys[n]];
      }
      assert keys[..|keys|] == keys;
    }

    /** `rollbackValues`: every entry is tried, also after a failure. */
    method RollbackValues(entries: seq<Entry>, outcomes: seq<Outcome>)
      modifies this
      ensures values == Restored(old(values), entries, outcomes)
    {
      for n := 0 to |entries|
        invariant values == Restored(old(values), entries[..n], outcomes)
      {
        var outcome := if n < |outcomes| then outcomes[n] else Completes;
        var _ := SetItem(entries[n], outcome);
        assert entries[..n + 1][..n] == entries[..n];
      }
      assert entries[..|entries|] == entries;
    }

    method TryForward(t: Target, token: Token, plan: Plan) returns (ok: bool)
      modifies this
      ensures Progress(values, ok) == Forward(old(values), t, token, plan)
    {
      if plan.abortFrom <= 0 {
        return false;
      }
      ok := SetItem(Entry(EndpointToken(t.host, t.port), Some(token)), plan.endpoint);
      if !ok || plan.abortFrom <= 1 {
        return false;
      }
      if t.hostKey.Some? {
        ok := SetItem(Entry(IdentityToken(t.hostKey.value), Some(token)), plan.identity);
      }
      if !ok || plan.abortFrom <= 2 {
        return false;
      }
      ok := SetItem(Entry(LegacyToken, None), plan.legacy);
      if !ok || plan.abortFrom <= 3 {
        return false;
      }
      ok := !(t.hostKey.Some? && !plan.pinned) && plan.abortFrom > 4;
    }

    method Store(t: Target, token: Token, plan: Plan, repair: seq<Outcome>) returns (rollback: Option<Rollback>)
      modifies this
      ensures Stored(values, rollback) == StoreToken(old(values), t, token, plan, repair)
    {
      var before := Read(TokenKeys(t));
      var ok := TryForward(t, token, plan);
      if ok {
        return Some(Rollback(before, token));
      }
      RollbackValues(before, repair);
      rollback := None;
    }

    method RunRollback(r: Rollback, outcomes: seq<Outcome>)
      modifies this
      ensures values == RolledBack(old(values), r, outcomes)
    {
      var entries: seq<Entry> := [];
      for n := 0 to |r.before|
        invariant values == old(values)
        invariant entries == StillOwned(values, r, r.before[..n])
      {
        var e := r.before[n];
        assert r.before[..n + 1][..n] == r.before[..n];
        if Get(values, e.key) == Written(r, e.key) {
          entries := entries + [e];
        }
      }
      assert r.before[..|r.before|] == r.before;
      RollbackValues(entries, outcomes);
    }

    /** `migrateVerifiedCredential`. */
    method Migrate(
      t: Target, token: Token, aborted: bool, current: bool,
      identity: Outcome, endpoint: Outcome, pinned: bool, repair: seq<Outcome>) returns (ok: bool)
      requires t.hostKey.Some?
      modifies this
      ensures Progress(values, ok) == MigrateCredential(old(values), t, token, aborted, current, identity, endpoint, pinned, repair)
    {
      var idKey, epKey := IdentityToken(t.hostKey.value), EndpointToken(t.host, t.port);
      var before := Read([idKey, epKey]);
      var idBefore, epBefore := Get(values, idKey), Get(values, epKey);
      if aborted {
        return false;
      }
      if idBefore == Some(token) && epBefore == Some(token) && current {
        return true;
      }
      ok := true;
      if idBefore != Some(token) {
        ok := SetItem(Entry(idKey, Some(token)), identity);
      }
      if ok && epBefore != Some(token) {
        ok := SetItem(Entry(epKey, Some(token)), endpoint);
      }
      ok := ok && pinned;
      if !ok {
        RollbackValues(before, repair);
      }
    }
  }
}

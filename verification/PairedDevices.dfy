/** The Host window's replica of the paired-device list
    (apps/host-desktop/src/paired-device-state.ts).

    Complete snapshots, partial grant confirmations, failed saves and revoke
    outcomes may arrive late, twice or out of order. The replica is a value
    `State` with one step function per message; `PairedDeviceStore` holds the
    module-level variables of the source and updates them in place. */
module PairedDevices {
  import opened Wrappers

  datatype Grants = Grants(
    credential: string,
    stateRevision: int,
    sources: seq<string>,
    revision: int,
    reviewRequired: bool,
    input: bool,
    persistenceError: Option<string>)

  datatype Device = Device(id: string, name: string, pairedAt: string, connected: bool, grants: Grants)

  datatype Snapshot = Snapshot(revision: int, devices: seq<Device>)

  datatype Removed = Removed(device: string, credential: string)

  datatype RevokeOutcome = RevokeOutcome(removed: seq<Removed>, stateRevision: int, persistenceErrors: seq<string>)

  datatype Failure = Failure(epoch: nat, error: string)

  datatype State = State(
    revision: int,
    devices: seq<Device>,
    administrativeError: Option<string>,
    uncertain: map<string, Failure>,
    failureEpoch: nat,
    administrativeRevision: int,
    removed: map<string, int>)

  const Initial := State(-1, [], None, map[], 0, -1, map[])

  /** What reaches the replica. A confirmation carries the uncertainty epoch read
      when its save was issued. */
  datatype Message =
    | SnapshotArrived(snapshot: Snapshot)
    | GrantsConfirmed(device: string, grants: Grants, startedAtEpoch: Option<nat>)
    | SaveFailed(device: string, credential: string, error: string)
    | RevokeReported(outcome: RevokeOutcome)

  // ---------------------------------------------------------------- steps

  function Credentials(devices: seq<Device>): set<string> {
    set d | d in devices :: d.grants.credential
  }

  function UncertaintyEpoch(s: State, credential: string): nat {
    if credential in s.uncertain then s.uncertain[credential].epoch else 0
  }

  function Retain(g: Grants, uncertain: map<string, Failure>): Grants {
    if g.credential in uncertain
    then g.(reviewRequired := true, persistenceError := Some(uncertain[g.credential].error))
    else g
  }

  /** Position of the first device with this id, or the length when there is none. */
  function FindId(devices: seq<Device>, id: string): (i: nat)
    ensures i <= |devices|
    ensures i < |devices| ==> devices[i].id == id
    ensures forall k :: 0 <= k < i ==> devices[k].id != id
  {
    if devices == [] then 0
    else if devices[0].id == id then 0
    else
      assert forall k :: 0 < k < |devices| ==> devices[k] == devices[1..][k - 1];
      1 + FindId(devices[1..], id)
  }

  /** A keyed collection in insertion order: a repeated id keeps its place and
      takes the later value. */
  function Index(devices: seq<Device>, n: nat): seq<Device>
    requires n <= |devices|
  {
    if n == 0 then []
    else
      var before := Index(devices, n - 1);
      var i := FindId(before, devices[n - 1].id);
      if i < |before| then before[i := devices[n - 1]] else before + [devices[n - 1]]
  }

  /** Progress of one snapshot: the devices so far, and the ids already deleted
      from the collection of previous devices. */
  datatype Merged = Merged(devices: seq<Device>, taken: set<string>)

  function Reconcile(uncertain: map<string, Failure>, revision: int, previous: Device, d: Device): Device {
    if previous.grants.stateRevision > revision then previous
    else if previous.grants.credential == d.grants.credential && previous.grants.revision > d.grants.revision
    then d.(grants := Retain(previous.grants, uncertain))
    else d.(grants := Retain(d.grants, uncertain))
  }

  function MergeOne(s: State, previous: seq<Device>, revision: int, m: Merged, d: Device): Merged {
    if d.grants.credential in s.removed then m
    else
      var i := FindId(previous, d.id);
      var settled :=
        if i < |previous| && d.id !in m.taken
        then Reconcile(s.uncertain, revision, previous[i], d)
        else d.(grants := Retain(d.grants, s.uncertain));
      Merged(m.devices + [settled], m.taken + {d.id})
  }

  function Merge(s: State, previous: seq<Device>, snapshot: Snapshot, n: nat): Merged
    requires n <= |snapshot.devices|
  {
    if n == 0 then Merged([], {})
    else MergeOne(s, previous, snapshot.revision, Merge(s, previous, snapshot, n - 1), snapshot.devices[n - 1])
  }

  function NewerUntaken(previous: seq<Device>, taken: set<string>, revision: int, n: nat): seq<Device>
    requires n <= |previous|
  {
    if n == 0 then []
    else
      var before := NewerUntaken(previous, taken, revision, n - 1);
      var d := previous[n - 1];
      if d.id !in taken && d.grants.stateRevision > revision then before + [d] else before
  }

  function MergedDevices(s: State, snapshot: Snapshot): seq<Device> {
    var previous := Index(s.devices, |s.devices|);
    var m := Merge(s, previous, snapshot, |snapshot.devices|);
    m.devices + NewerUntaken(previous, m.taken, snapshot.revision, |previous|)
  }

  function ReceiveSnapshot(s: State, snapshot: Snapshot): State {
    if snapshot.revision < s.revision then s
    else
      var devices := MergedDevices(s, snapshot);
      s.(revision := snapshot.revision,
         devices := devices,
         uncertain := map c | c in s.uncertain && c in Credentials(devices) :: s.uncertain[c],
         removed := map c | c in s.removed
                            && !(snapshot.revision >= s.removed[c] && c !in Credentials(snapshot.devices))
                          :: s.removed[c])
  }

  function Max(a: int, b: int): int { if a >= b then a else b }

  function ConfirmGrants(s: State, device: string, grants: Grants, startedAtEpoch: Option<nat>): State {
    var i := FindId(s.devices, device);
    if i == |s.devices|
       || s.devices[i].grants.credential != grants.credential
       || s.devices[i].grants.revision > grants.revision
    then s
    else
      var current := s.devices[i];
      var uncertain :=
        if grants.credential in s.uncertain && startedAtEpoch == Some(s.uncertain[grants.credential].epoch)
        then s.uncertain - {grants.credential}
        else s.uncertain;
      var confirmed := Retain(
        grants.(stateRevision := Max(grants.stateRevision, current.grants.stateRevision)), uncertain);
      s.(uncertain := uncertain, devices := s.devices[i := current.(grants := confirmed)])
  }

  function FindCredential(devices: seq<Device>, id: string, credential: string): (i: nat)
    ensures i <= |devices|
    ensures i < |devices| ==> devices[i].id == id && devices[i].grants.credential == credential
    ensures forall k :: 0 <= k < i ==> devices[k].id != id || devices[k].grants.credential != credential
  {
    if devices == [] then 0
    else if devices[0].id == id && devices[0].grants.credential == credential then 0
    else
      assert forall k :: 0 < k < |devices| ==> devices[k] == devices[1..][k - 1];
      1 + FindCredential(devices[1..], id, credential)
  }

  function MarkUncertain(s: State, device: string, credential: string, error: string): State {
    var i := FindCredential(s.devices, device, credential);
    if i == |s.devices| then s
    else
      var uncertain := s.uncertain[credential := Failure(s.failureEpoch + 1, error)];
      s.(uncertain := uncertain,
         failureEpoch := s.failureEpoch + 1,
         devices := s.devices[i := s.devices[i].(grants := Retain(s.devices[i].grants, uncertain))])
  }

  function RemovedCredentials(outcome: RevokeOutcome): set<string> {
    set r | r in outcome.removed :: r.credential
  }

  function Visible(devices: seq<Device>, removed: map<string, int>, n: nat): seq<Device>
    requires n <= |devices|
  {
    if n == 0 then []
    else if devices[n - 1].grants.credential in removed then Visible(devices, removed, n - 1)
    else Visible(devices, removed, n - 1) + [devices[n - 1]]
  }

  function Join(errors: seq<string>): string {
    if errors == [] then ""
    else if |errors| == 1 then errors[0]
    else errors[0] + "\n" + Join(errors[1..])
  }

  function Tombstones(s: State, outcome: RevokeOutcome): map<string, int> {
    if outcome.stateRevision <= s.revision then s.removed
    else Buried(s.removed, RemovedCredentials(outcome), outcome.stateRevision)
  }

  function Buried(removed: map<string, int>, credentials: set<string>, revision: int): map<string, int> {
    removed + map c | c in credentials :: Max(revision, if c in removed then removed[c] else -1)
  }

  lemma BuryOneMore(removed: map<string, int>, credentials: set<string>, revision: int, c: string)
    ensures var m := Buried(removed, credentials, revision);
            Buried(removed, credentials + {c}, revision) == m[c := Max(revision, if c in m then m[c] else -1)]
  {
  }

  function ReceiveRevoke(s: State, outcome: RevokeOutcome): State {
    var removed := Tombstones(s, outcome);
    var error := Join(outcome.persistenceErrors);
    s.(removed := removed,
       uncertain := if outcome.stateRevision > s.revision then s.uncertain - RemovedCredentials(outcome) else s.uncertain,
       devices := Visible(s.devices, removed, |s.devices|),
       administrativeError :=
         if error != "" then Some(error)
         else if outcome.stateRevision >= s.administrativeRevision then None
         else s.administrativeError,
       administrativeRevision := Max(s.administrativeRevision, outcome.stateRevision))
  }

  function Step(s: State, m: Message): State {
    match m
    case SnapshotArrived(snapshot) => ReceiveSnapshot(s, snapshot)
    case GrantsConfirmed(device, grants, epoch) => ConfirmGrants(s, device, grants, epoch)
    case SaveFailed(device, credential, error) => MarkUncertain(s, device, credential, error)
    case RevokeReported(outcome) => ReceiveRevoke(s, outcome)
  }

  function Run(s: State, messages: seq<Message>): State
    decreases messages
  {
    if messages == [] then s else Run(Step(s, messages[0]), messages[1..])
  }

  // ------------------------------------------------- the in-place replica

  class PairedDeviceStore {
    var revision: int
    var devices: seq<Device>
    var administrativeError: Option<string>
    var uncertain: map<string, Failure>
    var failureEpoch: nat
    var administrativeRevision: int
    var removedCredentials: map<string, int>

    ghost function Model(): State
      reads this
    {
      State(revision, devices, administrativeError, uncertain, failureEpoch, administrativeRevision, removedCredentials)
    }

    constructor ()
      ensures Model() == Initial
    {
      revision, devices, administrativeError := -1, [], None;
      uncertain, failureEpoch, administrativeRevision, removedCredentials := map[], 0, -1, map[];
    }

    method MergeInto(snapshot: Snapshot) returns (merged: seq<Device>)
      ensures merged == MergedDevices(Model(), snapshot)
    {
      ghost var s := Model();
      var previousById := Index(devices, |devices|);
      var taken: set<string> := {};
      merged := [];
      for n := 0 to |snapshot.devices|
        invariant Merged(merged, taken) == Merge(s, previousById, snapshot, n)
      {
        var d := snapshot.devices[n];
        if d.grants.credential !in removedCredentials {
          var i := FindId(previousById, d.id);
          if i < |previousById| && d.id !in taken {
            merged := merged + [Reconcile(uncertain, snapshot.revision, previousById[i], d)];
          } else {
            merged := merged + [d.(grants := Retain(d.grants, uncertain))];
          }
          taken := taken + {d.id};
        }
      }
      ghost var prefix := merged;
      for n := 0 to |previousById|
        invariant merged == prefix + NewerUntaken(previousById, taken, snapshot.revision, n)
      {
        if previousById[n].id !in taken && previousById[n].grants.stateRevision > snapshot.revision {
          merged := merged + [previousById[n]];
        }
      }
    }

    method ReceivePairedDeviceState(snapshot: Snapshot)
      modifies this
      ensures Model() == ReceiveSnapshot(old(Model()), snapshot)
    {
      if snapshot.revision < revision {
        return;
      }
      var merged := MergeInto(snapshot);
      DropUnlistedUncertainty(Credentials(merged));
      ForgetAcknowledgedRemovals(snapshot.revision, Credentials(snapshot.devices));
      revision, devices := snapshot.revision, merged;
    }

    method DropUnlistedUncertainty(current: set<string>)
      modifies this`uncertain
      ensures uncertain == map c | c in old(uncertain) && c in current :: old(uncertain)[c]
    {
      var keys := uncertain.Keys;
      while keys != {}
        invariant keys <= old(uncertain).Keys
        invariant uncertain == map c | c in old(uncertain) && (c in current || c in keys) :: old(uncertain)[c]
      {
        var credential :| credential in keys;
        keys := keys - {credential};
        if credential !in current {
          uncertain := uncertain - {credential};
        }
      }
    }

    method ForgetAcknowledgedRemovals(upTo: int, membership: set<string>)
      modifies this`removedCredentials
      ensures removedCredentials
           == map c | c in old(removedCredentials) && !(upTo >= old(removedCredentials)[c] && c !in membership)
                    :: old(removedCredentials)[c]
    {
      var keys := removedCredentials.Keys;
      while keys != {}
        invariant keys <= old(removedCredentials).Keys
        invariant removedCredentials
               == map c | c in old(removedCredentials)
                          && (c in keys || !(upTo >= old(removedCredentials)[c] && c !in membership))
                        :: old(removedCredentials)[c]
      {
        var credential :| credential in keys;
        keys := keys - {credential};
        if upTo >= removedCredentials[credential] && credential !in membership {
          removedCredentials := removedCredentials - {credential};
        }
      }
    }

    method ConfirmSourceGrants(device: string, grants: Grants, startedAtEpoch: Option<nat>)
      modifies this
      ensures Model() == ConfirmGrants(old(Model()), device, grants, startedAtEpoch)
    {
      var i := FindId(devices, device);
      if i == |devices| || devices[i].grants.credential != grants.credential
         || devices[i].grants.revision > grants.revision {
        return;
      }
      if grants.credential in uncertain && startedAtEpoch == Some(uncertain[grants.credential].epoch) {
        uncertain := uncertain - {grants.credential};
      }
      var stateRevision := Max(grants.stateRevision, devices[i].grants.stateRevision);
      var confirmed := Retain(grants.(stateRevision := stateRevision), uncertain);
      devices := devices[i := devices[i].(grants := confirmed)];
    }

    method MarkSourceGrantsUncertain(device: string, credential: string, error: string)
      modifies this
      ensures Model() == MarkUncertain(old(Model()), device, credential, error)
    {
      var i := FindCredential(devices, device, credential);
      if i == |devices| {
        return;
      }
      failureEpoch := failureEpoch + 1;
      uncertain := uncertain[credential := Failure(failureEpoch, error)];
      devices := devices[i := devices[i].(grants := Retain(devices[i].grants, uncertain))];
    }

    method RecordRemovals(outcome: RevokeOutcome)
      requires outcome.stateRevision > revision
      modifies this`removedCredentials, this`uncertain
      ensures removedCredentials == Tombstones(old(Model()), outcome)
      ensures uncertain == old(uncertain) - RemovedCredentials(outcome)
    {
      ghost var before, cleared := removedCredentials, uncertain;
      ghost var done: set<string> := {};
      for n := 0 to |outcome.removed|
        invariant done == set r | r in outcome.removed[..n] :: r.credential
        invariant uncertain == cleared - done
        invariant removedCredentials == Buried(before, done, outcome.stateRevision)
      {
        var c := outcome.removed[n].credential;
        assert outcome.removed[..n + 1] == outcome.removed[..n] + [outcome.removed[n]];
        BuryOneMore(before, done, outcome.stateRevision, c);
        done := done + {c};
        removedCredentials := removedCredentials[c :=
          Max(outcome.stateRevision, if c in removedCredentials then removedCredentials[c] else -1)];
        uncertain := uncertain - {c};
      }
      assert outcome.removed[..|outcome.removed|] == outcome.removed;
    }

    method HideRemovedDevices()
      modifies this`devices
      ensures devices == Visible(old(devices), removedCredentials, |old(devices)|)
    {
      var kept: seq<Device> := [];
      for n := 0 to |devices|
        invariant devices == old(devices)
        invariant kept == Visible(devices, removedCredentials, n)
      {
        if devices[n].grants.credential !in removedCredentials {
          kept := kept + [devices[n]];
        }
      }
      devices := kept;
    }

    method ReceiveRevokeOutcome(outcome: RevokeOutcome)
      modifies this
      ensures Model() == ReceiveRevoke(old(Model()), outcome)
    {
      if outcome.stateRevision > revision {
        RecordRemovals(outcome);
      }
      HideRemovedDevices();
      var error := Join(outcome.persistenceErrors);
      if error != "" {
        administrativeError := Some(error);
      } else if outcome.stateRevision >= administrativeRevision {
        administrativeError := None;
      }
      administrativeRevision := Max(administrativeRevision, outcome.stateRevision);
    }
  }
}

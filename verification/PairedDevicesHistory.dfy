/** What the paired-device replica guarantees against a truthful Host history,
    for every order, duplication and delay of the messages. */
module PairedDevicesHistory {
  import opened Wrappers
  import opened PairedDevices

  /** The Host's side: which credentials exist at each revision of its state, and
      which device each credential was issued to. */
  datatype History = History(members: int -> set<string>, owner: string -> string)

  /** From this revision on the credential is never a member again. */
  ghost predicate Gone(h: History, credential: string, from: int) {
    forall r :: r >= from ==> credential !in h.members(r)
  }

  predicate DistinctIds(devices: seq<Device>) {
    forall i, j :: 0 <= i < j < |devices| ==> devices[i].id != devices[j].id
  }

  predicate TrueDevice(h: History, d: Device) {
    h.owner(d.grants.credential) == d.id && d.grants.credential in h.members(d.grants.stateRevision)
  }

  ghost predicate Truthful(h: History, m: Message) {
    match m
    case SnapshotArrived(snapshot) =>
      && DistinctIds(snapshot.devices)
      && Credentials(snapshot.devices) == h.members(snapshot.revision)
      && forall d :: d in snapshot.devices ==> TrueDevice(h, d)
    case GrantsConfirmed(device, grants, epoch) => grants.credential in h.members(grants.stateRevision)
    case SaveFailed(device, credential, error) => true
    case RevokeReported(outcome) =>
      forall c :: c in RemovedCredentials(outcome) ==> Gone(h, c, outcome.stateRevision)
  }

  ghost predicate AllTruthful(h: History, messages: seq<Message>) {
    forall m :: m in messages ==> Truthful(h, m)
  }

  /** A listed device is still vouched for at the replica's revision or later. */
  predicate Vouched(h: History, revision: int, d: Device) {
    d.grants.credential in h.members(revision) || d.grants.stateRevision > revision
  }

  predicate Shown(uncertain: map<string, Failure>, d: Device) {
    d.grants.credential in uncertain ==>
      d.grants.reviewRequired && d.grants.persistenceError == Some(uncertain[d.grants.credential].error)
  }

  predicate Sound(h: History, revision: int, uncertain: map<string, Failure>, removed: map<string, int>, d: Device) {
    && TrueDevice(h, d)
    && Vouched(h, revision, d)
    && Shown(uncertain, d)
    && d.grants.credential !in removed
  }

  ghost predicate Consistent(h: History, s: State) {
    && DistinctIds(s.devices)
    && (forall d :: d in s.devices ==> Sound(h, s.revision, s.uncertain, s.removed, d))
    && (forall c :: c in s.removed ==> Gone(h, c, s.removed[c]))
    && (forall c :: c in s.uncertain ==> 1 <= s.uncertain[c].epoch <= s.failureEpoch)
  }

  // ------------------------------------------------ merging one snapshot

  lemma {:induction false} IndexOfDistinct(devices: seq<Device>, n: nat)
    requires n <= |devices| && DistinctIds(devices)
    ensures Index(devices, n) == devices[..n]
  {
    if n > 0 {
      IndexOfDistinct(devices, n - 1);
      assert devices[..n] == devices[..n - 1] + [devices[n - 1]];
    }
  }

  lemma {:induction false} NewerFacts(previous: seq<Device>, taken: set<string>, revision: int, n: nat)
    requires n <= |previous| && DistinctIds(previous)
    ensures var kept := NewerUntaken(previous, taken, revision, n);
            && DistinctIds(kept)
            && forall d :: d in kept ==> d in previous[..n] && d.id !in taken && d.grants.stateRevision > revision
  {
    if n > 0 {
      NewerFacts(previous, taken, revision, n - 1);
      assert previous[..n] == previous[..n - 1] + [previous[n - 1]];
    }
  }

  /** What one snapshot device becomes, looked up directly in the old list. */
  function Settled(s: State, revision: int, d: Device): Device {
    var i := FindId(s.devices, d.id);
    if i < |s.devices| then Reconcile(s.uncertain, revision, s.devices[i], d)
    else d.(grants := Retain(d.grants, s.uncertain))
  }

  /** The result in closed form: every snapshot device whose credential is not
      known removed, settled against the old list. */
  function SettledUpTo(s: State, snapshot: Snapshot, n: nat): seq<Device>
    requires n <= |snapshot.devices|
  {
    if n == 0 then []
    else if snapshot.devices[n - 1].grants.credential in s.removed then SettledUpTo(s, snapshot, n - 1)
    else SettledUpTo(s, snapshot, n - 1) + [Settled(s, snapshot.revision, snapshot.devices[n - 1])]
  }

  lemma {:induction false} MergeFacts(s: State, snapshot: Snapshot, n: nat)
    requires n <= |snapshot.devices| && DistinctIds(snapshot.devices)
    ensures var m := Merge(s, s.devices, snapshot, n);
            && m.devices == SettledUpTo(s, snapshot, n)
            && (forall d :: d in m.devices ==> d.id in m.taken)
            && (forall id :: id in m.taken ==> exists k :: 0 <= k < n && snapshot.devices[k].id == id)
  {
    if n > 0 {
      MergeFacts(s, snapshot, n - 1);
    }
  }

  predicate KeptBySnapshot(s: State, snapshot: Snapshot, source: Device, d: Device) {
    source in snapshot.devices && source.grants.credential !in s.removed && d == Settled(s, snapshot.revision, source)
  }

  lemma {:induction false} SettledSource(s: State, snapshot: Snapshot, n: nat, i: nat) returns (k: nat)
    requires n <= |snapshot.devices| && i < |SettledUpTo(s, snapshot, n)|
    ensures k < n && KeptBySnapshot(s, snapshot, snapshot.devices[k], SettledUpTo(s, snapshot, n)[i])
    ensures SettledUpTo(s, snapshot, n)[i].id == snapshot.devices[k].id
  {
    if i < |SettledUpTo(s, snapshot, n - 1)| {
      k := SettledSource(s, snapshot, n - 1, i);
    } else {
      k := n - 1;
    }
  }

  lemma {:induction false} SettledAreDistinct(s: State, snapshot: Snapshot, n: nat)
    requires n <= |snapshot.devices| && DistinctIds(snapshot.devices)
    ensures DistinctIds(SettledUpTo(s, snapshot, n))
  {
    if n > 0 {
      SettledAreDistinct(s, snapshot, n - 1);
      var d, before := snapshot.devices[n - 1], SettledUpTo(s, snapshot, n - 1);
      forall i | 0 <= i < |before|
        ensures before[i].id != d.id
      {
        var k := SettledSource(s, snapshot, n - 1, i);
      }
      var e := Settled(s, snapshot.revision, d);
      assert e.id == d.id;
      OneMoreIsDistinct(before, e);
      assert SettledUpTo(s, snapshot, n) == before || SettledUpTo(s, snapshot, n) == before + [e];
    }
  }

  lemma SettledOrigin(s: State, snapshot: Snapshot, n: nat)
    requires n <= |snapshot.devices| && DistinctIds(snapshot.devices)
    ensures DistinctIds(SettledUpTo(s, snapshot, n))
    ensures forall d :: d in SettledUpTo(s, snapshot, n) ==>
              exists k :: 0 <= k < n && KeptBySnapshot(s, snapshot, snapshot.devices[k], d)
  {
    SettledAreDistinct(s, snapshot, n);
    forall d | d in SettledUpTo(s, snapshot, n)
      ensures exists k :: 0 <= k < n && KeptBySnapshot(s, snapshot, snapshot.devices[k], d)
    {
      var i :| 0 <= i < |SettledUpTo(s, snapshot, n)| && SettledUpTo(s, snapshot, n)[i] == d;
      var k := SettledSource(s, snapshot, n, i);
    }
  }

  lemma OneMoreIsDistinct(before: seq<Device>, e: Device)
    requires DistinctIds(before) && forall i :: 0 <= i < |before| ==> before[i].id != e.id
    ensures DistinctIds(before + [e])
  {
  }

  /** Where each device of an accepted snapshot's result comes from. */
  lemma ResultOrigin(s: State, snapshot: Snapshot)
    requires DistinctIds(s.devices) && DistinctIds(snapshot.devices)
    ensures var devices := MergedDevices(s, snapshot);
            && DistinctIds(devices)
            && forall d :: d in devices ==>
                 || (exists source :: KeptBySnapshot(s, snapshot, source, d))
                 || (d in s.devices && d.grants.stateRevision > snapshot.revision)
  {
    var n := |snapshot.devices|;
    IndexOfDistinct(s.devices, |s.devices|);
    assert s.devices[..|s.devices|] == s.devices;
    var m := Merge(s, s.devices, snapshot, n);
    MergeFacts(s, snapshot, n);
    SettledOrigin(s, snapshot, n);
    NewerFacts(s.devices, m.taken, snapshot.revision, |s.devices|);
    var kept := NewerUntaken(s.devices, m.taken, snapshot.revision, |s.devices|);
  }

  /** A settled snapshot device: its credential is the snapshot's, or it is an old
      entry known to be newer than the snapshot. */
  lemma SettledFacts(h: History, s: State, snapshot: Snapshot, d: Device)
    requires Consistent(h, s) && Truthful(h, SnapshotArrived(snapshot)) && d in snapshot.devices
    requires d.grants.credential !in s.removed
    ensures var e := Settled(s, snapshot.revision, d);
            && e.id == d.id
            && Sound(h, snapshot.revision, s.uncertain, s.removed, e)
            && ((e in s.devices && e.grants.stateRevision > snapshot.revision)
                || (e.grants.credential == d.grants.credential
                    && forall p :: p in s.devices && p.id == d.id && p.grants.credential == e.grants.credential
                                   ==> p.grants.revision <= e.grants.revision))
            && (e.grants.stateRevision == d.grants.stateRevision
                || exists p :: p in s.devices && p.grants.stateRevision == e.grants.stateRevision)
  {
    assert d.grants.credential in Credentials(snapshot.devices);
    var i := FindId(s.devices, d.id);
    if i < |s.devices| {
      assert s.devices[i] in s.devices;
    }
  }

  lemma SnapshotKeepsConsistent(h: History, s: State, snapshot: Snapshot)
    requires Consistent(h, s) && Truthful(h, SnapshotArrived(snapshot))
    ensures Consistent(h, ReceiveSnapshot(s, snapshot))
  {
    if snapshot.revision >= s.revision {
      ResultOrigin(s, snapshot);
      forall d | d in MergedDevices(s, snapshot)
        ensures Sound(h, snapshot.revision, s.uncertain, s.removed, d)
      {
        if source :| KeptBySnapshot(s, snapshot, source, d) {
          SettledFacts(h, s, snapshot, source);
        }
      }
    }
  }

  // -------------------------------------------------- every step, every run

  lemma {:induction false} VisibleFacts(devices: seq<Device>, removed: map<string, int>, n: nat)
    requires n <= |devices| && DistinctIds(devices)
    ensures var kept := Visible(devices, removed, n);
            && DistinctIds(kept)
            && forall d :: d in kept <==> d in devices[..n] && d.grants.credential !in removed
  {
    if n > 0 {
      VisibleFacts(devices, removed, n - 1);
      assert devices[..n] == devices[..n - 1] + [devices[n - 1]];
    }
  }

  lemma RevokeKeepsConsistent(h: History, s: State, outcome: RevokeOutcome)
    requires Consistent(h, s) && Truthful(h, RevokeReported(outcome))
    ensures Consistent(h, ReceiveRevoke(s, outcome))
  {
    VisibleFacts(s.devices, Tombstones(s, outcome), |s.devices|);
    var t := ReceiveRevoke(s, outcome);
    forall d | d in t.devices
      ensures Sound(h, t.revision, t.uncertain, t.removed, d)
    {
      assert Sound(h, s.revision, s.uncertain, s.removed, d);
    }
  }

  /** Only one listed device can hold a credential, so re-marking its grants
      leaves nobody else's failure unshown. */
  lemma OneHolder(h: History, s: State, i: nat, j: nat)
    requires Consistent(h, s) && i < |s.devices| && j < |s.devices|
    requires s.devices[i].grants.credential == s.devices[j].grants.credential
    ensures i == j
  {
    assert s.devices[i] in s.devices && s.devices[j] in s.devices;
    assert s.devices[i].id == s.devices[j].id;
  }

  lemma ReplacedGrantsKeepConsistent(h: History, s: State, i: nat, grants: Grants, uncertain: map<string, Failure>)
    requires Consistent(h, s) && i < |s.devices|
    requires grants.credential == s.devices[i].grants.credential
    requires grants.credential in h.members(grants.stateRevision)
    requires grants.stateRevision >= s.devices[i].grants.stateRevision
    requires Shown(uncertain, s.devices[i].(grants := grants))
    requires forall c :: c != grants.credential ==>
               (c in uncertain <==> c in s.uncertain) && (c in uncertain ==> uncertain[c] == s.uncertain[c])
    ensures var devices := s.devices[i := s.devices[i].(grants := grants)];
            && DistinctIds(devices)
            && forall d :: d in devices ==> Sound(h, s.revision, uncertain, s.removed, d)
  {
    var devices := s.devices[i := s.devices[i].(grants := grants)];
    forall k | 0 <= k < |devices|
      ensures Sound(h, s.revision, uncertain, s.removed, devices[k])
    {
      assert s.devices[k] in s.devices;
      if k != i && s.devices[k].grants.credential == grants.credential {
        OneHolder(h, s, i, k);
      }
    }
  }

  lemma ConfirmKeepsConsistent(h: History, s: State, device: string, grants: Grants, epoch: Option<nat>)
    requires Consistent(h, s) && Truthful(h, GrantsConfirmed(device, grants, epoch))
    ensures Consistent(h, ConfirmGrants(s, device, grants, epoch))
  {
    var t := ConfirmGrants(s, device, grants, epoch);
    if t != s {
      var i := FindId(s.devices, device);
      assert s.devices[i] in s.devices;
      ReplacedGrantsKeepConsistent(h, s, i, t.devices[i].grants, t.uncertain);
    }
  }

  lemma FailureKeepsConsistent(h: History, s: State, device: string, credential: string, error: string)
    requires Consistent(h, s)
    ensures Consistent(h, MarkUncertain(s, device, credential, error))
  {
    var i := FindCredential(s.devices, device, credential);
    if i < |s.devices| {
      var t := MarkUncertain(s, device, credential, error);
      assert s.devices[i] in s.devices;
      ReplacedGrantsKeepConsistent(h, s, i, t.devices[i].grants, t.uncertain);
    }
  }

  lemma StepKeepsConsistent(h: History, s: State, m: Message)
    requires Consistent(h, s) && Truthful(h, m)
    ensures Consistent(h, Step(s, m))
  {
    match m
    case SnapshotArrived(snapshot) => SnapshotKeepsConsistent(h, s, snapshot);
    case GrantsConfirmed(device, grants, epoch) => ConfirmKeepsConsistent(h, s, device, grants, epoch);
    case SaveFailed(device, credential, error) => FailureKeepsConsistent(h, s, device, credential, error);
    case RevokeReported(outcome) => RevokeKeepsConsistent(h, s, outcome);
  }

  /** In every run, every listed credential with an unresolved save failure shows
      the review flag and that failure's error. */
  lemma {:induction false} RunKeepsConsistent(h: History, s: State, messages: seq<Message>)
    requires Consistent(h, s) && AllTruthful(h, messages)
    ensures Consistent(h, Run(s, messages))
    decreases messages
  {
    if messages != [] {
      StepKeepsConsistent(h, s, messages[0]);
      RunKeepsConsistent(h, Step(s, messages[0]), messages[1..]);
    }
  }

  lemma {:induction false} RunAppend(s: State, before: seq<Message>, after: seq<Message>)
    ensures Run(s, before + after) == Run(Run(s, before), after)
    decreases before
  {
    if before == [] {
      assert before + after == after;
    } else {
      assert (before + after)[1..] == before[1..] + after;
      RunAppend(Step(s, before[0]), before[1..], after);
    }
  }

  // ------------------------------------------- a revocation stays revoked

  /** Hidden now, and neither a late snapshot nor a late reply can list it. */
  ghost predicate Buried(h: History, s: State, credential: string) {
    && credential !in Credentials(s.devices)
    && (credential in s.removed || Gone(h, credential, s.revision))
  }

  lemma SnapshotLeavesBuried(h: History, s: State, snapshot: Snapshot, credential: string)
    requires Consistent(h, s) && Truthful(h, SnapshotArrived(snapshot)) && Buried(h, s, credential)
    ensures Buried(h, ReceiveSnapshot(s, snapshot), credential)
  {
    if snapshot.revision >= s.revision {
      ResultOrigin(s, snapshot);
      forall d | d in MergedDevices(s, snapshot)
        ensures d.grants.credential != credential
      {
        if source :| KeptBySnapshot(s, snapshot, source, d) {
          SettledFacts(h, s, snapshot, source);
          assert source.grants.credential in Credentials(snapshot.devices);
        }
      }
    }
  }

  lemma StepLeavesBuried(h: History, s: State, m: Message, credential: string)
    requires Consistent(h, s) && Truthful(h, m) && Buried(h, s, credential)
    ensures Buried(h, Step(s, m), credential)
  {
    match m
    case SnapshotArrived(snapshot) => SnapshotLeavesBuried(h, s, snapshot, credential);
    case GrantsConfirmed(device, grants, epoch) =>
      var i := FindId(s.devices, device);
      if i < |s.devices| {
        assert s.devices[i] in s.devices;
      }
    case SaveFailed(device, failed, error) =>
      var i := FindCredential(s.devices, device, failed);
      if i < |s.devices| {
        assert s.devices[i] in s.devices;
      }
    case RevokeReported(outcome) => VisibleFacts(s.devices, Tombstones(s, outcome), |s.devices|);
  }

  lemma RevokeBuries(h: History, s: State, outcome: RevokeOutcome, credential: string)
    requires Consistent(h, s) && Truthful(h, RevokeReported(outcome))
    requires credential in RemovedCredentials(outcome)
    ensures Buried(h, ReceiveRevoke(s, outcome), credential)
  {
    VisibleFacts(s.devices, Tombstones(s, outcome), |s.devices|);
    if outcome.stateRevision <= s.revision && credential in Credentials(s.devices) {
      assert false;
    }
  }

  lemma {:induction false} StaysBuried(h: History, s: State, messages: seq<Message>, credential: string)
    requires Consistent(h, s) && AllTruthful(h, messages) && Buried(h, s, credential)
    ensures Buried(h, Run(s, messages), credential)
    decreases messages
  {
    if messages != [] {
      StepKeepsConsistent(h, s, messages[0]);
      StepLeavesBuried(h, s, messages[0], credential);
      StaysBuried(h, Step(s, messages[0]), messages[1..], credential);
    }
  }

  /** Whatever arrived before a revoke outcome and whatever arrives after it, a
      credential it reports removed is not listed again. */
  lemma RevokedNeverReappears(
    h: History, before: seq<Message>, outcome: RevokeOutcome, after: seq<Message>, credential: string)
    requires AllTruthful(h, before) && Truthful(h, RevokeReported(outcome)) && AllTruthful(h, after)
    requires credential in RemovedCredentials(outcome)
    ensures credential !in Credentials(Run(Initial, before + [RevokeReported(outcome)] + after).devices)
  {
    var s := Run(Initial, before);
    RunKeepsConsistent(h, Initial, before);
    RevokeKeepsConsistent(h, s, outcome);
    RevokeBuries(h, s, outcome, credential);
    StaysBuried(h, ReceiveRevoke(s, outcome), after, credential);
    RunAppend(Initial, before + [RevokeReported(outcome)], after);
    RunAppend(Initial, before, [RevokeReported(outcome)]);
  }

  // -------------------------------------------------------- convergence

  /** No revision this message carries exceeds `revision`. */
  predicate NotNewer(m: Message, revision: int) {
    match m
    case SnapshotArrived(snapshot) =>
      snapshot.revision <= revision && forall d :: d in snapshot.devices ==> d.grants.stateRevision <= revision
    case GrantsConfirmed(device, grants, epoch) => grants.stateRevision <= revision
    case SaveFailed(device, credential, error) => true
    case RevokeReported(outcome) => outcome.stateRevision <= revision
  }

  predicate Bounded(s: State, revision: int) {
    && s.revision <= revision
    && (forall d :: d in s.devices ==> d.grants.stateRevision <= revision)
    && (forall c :: c in s.removed ==> s.removed[c] <= revision)
  }

  lemma SnapshotBounded(h: History, s: State, snapshot: Snapshot, revision: int)
    requires Consistent(h, s) && Truthful(h, SnapshotArrived(snapshot))
    requires Bounded(s, revision) && NotNewer(SnapshotArrived(snapshot), revision)
    ensures Bounded(ReceiveSnapshot(s, snapshot), revision)
  {
    if snapshot.revision >= s.revision {
      ResultOrigin(s, snapshot);
      forall d | d in MergedDevices(s, snapshot)
        ensures d.grants.stateRevision <= revision
      {
        if source :| KeptBySnapshot(s, snapshot, source, d) {
          SettledFacts(h, s, snapshot, source);
        }
      }
    }
  }

  lemma ReplyBounded(s: State, device: string, grants: Grants, epoch: Option<nat>, revision: int)
    requires Bounded(s, revision) && grants.stateRevision <= revision
    ensures Bounded(ConfirmGrants(s, device, grants, epoch), revision)
  {
    var i := FindId(s.devices, device);
    assert i < |s.devices| ==> s.devices[i] in s.devices;
  }

  lemma FailureBounded(s: State, device: string, credential: string, error: string, revision: int)
    requires Bounded(s, revision)
    ensures Bounded(MarkUncertain(s, device, credential, error), revision)
  {
    var i := FindCredential(s.devices, device, credential);
    assert i < |s.devices| ==> s.devices[i] in s.devices;
  }

  lemma RevokeBounded(s: State, outcome: RevokeOutcome, revision: int)
    requires Bounded(s, revision) && DistinctIds(s.devices) && outcome.stateRevision <= revision && -1 <= revision
    ensures Bounded(ReceiveRevoke(s, outcome), revision)
  {
    VisibleFacts(s.devices, Tombstones(s, outcome), |s.devices|);
  }

  lemma StepBounded(h: History, s: State, m: Message, revision: int)
    requires Consistent(h, s) && Truthful(h, m) && Bounded(s, revision) && NotNewer(m, revision)
    requires -1 <= revision
    ensures Bounded(Step(s, m), revision)
  {
    match m
    case SnapshotArrived(snapshot) => SnapshotBounded(h, s, snapshot, revision);
    case GrantsConfirmed(device, grants, epoch) => ReplyBounded(s, device, grants, epoch, revision);
    case SaveFailed(device, credential, error) => FailureBounded(s, device, credential, error, revision);
    case RevokeReported(outcome) => RevokeBounded(s, outcome, revision);
  }

  lemma {:induction false} RunBounded(h: History, s: State, messages: seq<Message>, revision: int)
    requires Consistent(h, s) && AllTruthful(h, messages) && Bounded(s, revision) && -1 <= revision
    requires forall m :: m in messages ==> NotNewer(m, revision)
    ensures Bounded(Run(s, messages), revision)
    decreases messages
  {
    if messages != [] {
      StepKeepsConsistent(h, s, messages[0]);
      StepBounded(h, s, messages[0], revision);
      RunBounded(h, Step(s, messages[0]), messages[1..], revision);
    }
  }

  predicate SameListing(a: seq<Device>, b: seq<Device>) {
    |a| == |b| && forall i :: 0 <= i < |a| ==> a[i].id == b[i].id && a[i].grants.credential == b[i].grants.credential
  }

  lemma {:induction false} NewestSettled(h: History, s: State, snapshot: Snapshot, n: nat)
    requires n <= |snapshot.devices|
    requires Consistent(h, s) && Truthful(h, SnapshotArrived(snapshot)) && Bounded(s, snapshot.revision)
    ensures SameListing(SettledUpTo(s, snapshot, n), snapshot.devices[..n])
  {
    if n > 0 {
      var d := snapshot.devices[n - 1];
      NewestSettled(h, s, snapshot, n - 1);
      var i := FindId(s.devices, d.id);
      assert i < |s.devices| ==> s.devices[i] in s.devices;
      assert snapshot.devices[..n] == snapshot.devices[..n - 1] + [d];
    }
  }

  lemma {:induction false} NoneNewer(previous: seq<Device>, taken: set<string>, revision: int, n: nat)
    requires n <= |previous| && forall d :: d in previous ==> d.grants.stateRevision <= revision
    ensures NewerUntaken(previous, taken, revision, n) == []
  {
    if n > 0 {
      NoneNewer(previous, taken, revision, n - 1);
      assert previous[n - 1] in previous;
    }
  }

  /** Nothing known is newer than the snapshot, so nothing is appended to its devices. */
  lemma NewestMerge(s: State, snapshot: Snapshot)
    requires DistinctIds(s.devices) && DistinctIds(snapshot.devices)
    requires forall d :: d in s.devices ==> d.grants.stateRevision <= snapshot.revision
    ensures MergedDevices(s, snapshot) == SettledUpTo(s, snapshot, |snapshot.devices|)
  {
    var n := |snapshot.devices|;
    IndexOfDistinct(s.devices, |s.devices|);
    assert s.devices[..|s.devices|] == s.devices;
    MergeFacts(s, snapshot, n);
    NoneNewer(s.devices, Merge(s, s.devices, snapshot, n).taken, snapshot.revision, |s.devices|);
  }

  lemma NewestSnapshotStep(h: History, s: State, snapshot: Snapshot)
    requires Consistent(h, s) && Truthful(h, SnapshotArrived(snapshot)) && Bounded(s, snapshot.revision)
    ensures var t := ReceiveSnapshot(s, snapshot);
            SameListing(t.devices, snapshot.devices) && t.revision == snapshot.revision && t.removed == map[]
  {
    var n := |snapshot.devices|;
    NewestSettled(h, s, snapshot, n);
    assert snapshot.devices[..n] == snapshot.devices;
    NewestMerge(s, snapshot);
    forall c | c in s.removed
      ensures snapshot.revision >= s.removed[c] && c !in Credentials(snapshot.devices)
    {
      assert Gone(h, c, s.removed[c]);
    }
  }

  /** Once a snapshot at least as new as every revision seen arrives, the replica
      lists exactly that snapshot's devices and credentials, in its order, and
      remembers no removal any more. */
  lemma NewestSnapshotWins(h: History, messages: seq<Message>, snapshot: Snapshot)
    requires AllTruthful(h, messages) && Truthful(h, SnapshotArrived(snapshot)) && -1 <= snapshot.revision
    requires forall m :: m in messages ==> NotNewer(m, snapshot.revision)
    ensures var t := Run(Initial, messages + [SnapshotArrived(snapshot)]);
            SameListing(t.devices, snapshot.devices) && t.revision == snapshot.revision && t.removed == map[]
  {
    RunKeepsConsistent(h, Initial, messages);
    RunBounded(h, Initial, messages, snapshot.revision);
    RunAppend(Initial, messages, [SnapshotArrived(snapshot)]);
    NewestSnapshotStep(h, Run(Initial, messages), snapshot);
  }

  // -------------------------------------- grant revisions never go back

  ghost predicate Lists(s: State, device: string, credential: string) {
    exists d :: d in s.devices && d.id == device && d.grants.credential == credential
  }

  /** Every listed entry of this device and credential has at least this revision. */
  predicate AtLeast(s: State, device: string, credential: string, revision: int) {
    forall d :: d in s.devices && d.id == device && d.grants.credential == credential ==> d.grants.revision >= revision
  }

  ghost predicate ListedThroughout(s: State, messages: seq<Message>, device: string, credential: string)
    decreases messages
  {
    && Lists(s, device, credential)
    && (messages != [] ==> ListedThroughout(Step(s, messages[0]), messages[1..], device, credential))
  }

  lemma StepKeepsRevision(h: History, s: State, m: Message, device: string, credential: string, revision: int)
    requires Consistent(h, s) && Truthful(h, m)
    requires Lists(s, device, credential) && AtLeast(s, device, credential, revision)
    ensures AtLeast(Step(s, m), device, credential, revision)
  {
    match m
    case SnapshotArrived(snapshot) =>
      if snapshot.revision >= s.revision {
        ResultOrigin(s, snapshot);
        var held :| held in s.devices && held.id == device && held.grants.credential == credential;
        forall d | d in MergedDevices(s, snapshot) && d.id == device && d.grants.credential == credential
          ensures d.grants.revision >= revision
        {
          if source :| KeptBySnapshot(s, snapshot, source, d) {
            SettledFacts(h, s, snapshot, source);
          }
        }
      }
    case GrantsConfirmed(id, grants, epoch) =>
      var i := FindId(s.devices, id);
      if i < |s.devices| {
        assert s.devices[i] in s.devices;
      }
    case SaveFailed(id, failed, error) =>
      var i := FindCredential(s.devices, id, failed);
      if i < |s.devices| {
        assert s.devices[i] in s.devices;
      }
    case RevokeReported(outcome) => VisibleFacts(s.devices, Tombstones(s, outcome), |s.devices|);
  }

  /** While the same device and credential stay listed, no message moves their
      grant revision backwards. */
  lemma {:induction false} RevisionNeverDecreases(
    h: History, s: State, messages: seq<Message>, device: string, credential: string, revision: int)
    requires Consistent(h, s) && AllTruthful(h, messages)
    requires ListedThroughout(s, messages, device, credential) && AtLeast(s, device, credential, revision)
    ensures AtLeast(Run(s, messages), device, credential, revision)
    decreases messages
  {
    if messages != [] {
      StepKeepsConsistent(h, s, messages[0]);
      StepKeepsRevision(h, s, messages[0], device, credential, revision);
      RevisionNeverDecreases(h, Step(s, messages[0]), messages[1..], device, credential, revision);
    }
  }

  // ------------------------------------------------ failures stay visible

  /** A message that may settle or replace the failure recorded at `epoch`: a
      revocation, a newer failure, or a confirmation of a save issued at exactly
      that epoch. */
  predicate MaySettle(m: Message, credential: string, epoch: nat) {
    match m
    case SnapshotArrived(snapshot) => false
    case GrantsConfirmed(device, grants, startedAt) => grants.credential == credential && startedAt == Some(epoch)
    case SaveFailed(device, failed, error) => failed == credential
    case RevokeReported(outcome) => credential in RemovedCredentials(outcome)
  }

  /** A recorded failure outlives every other message, for as long as its
      credential stays listed; the device goes on showing its error. */
  lemma {:induction false} FailureStaysShown(
    h: History, s: State, messages: seq<Message>, device: string, credential: string)
    requires Consistent(h, s) && AllTruthful(h, messages) && credential in s.uncertain
    requires ListedThroughout(s, messages, device, credential)
    requires forall m :: m in messages ==> !MaySettle(m, credential, s.uncertain[credential].epoch)
    ensures var t := Run(s, messages);
            && credential in t.uncertain && t.uncertain[credential] == s.uncertain[credential]
            && forall d :: d in t.devices && d.grants.credential == credential ==>
                 d.grants.reviewRequired && d.grants.persistenceError == Some(s.uncertain[credential].error)
    decreases messages
  {
    if messages != [] {
      var next := Step(s, messages[0]);
      StepKeepsConsistent(h, s, messages[0]);
      assert Lists(next, device, credential);
      assert credential in Credentials(next.devices);
      assert !MaySettle(messages[0], credential, s.uncertain[credential].epoch);
      assert credential in next.uncertain && next.uncertain[credential] == s.uncertain[credential];
      assert forall m :: m in messages[1..] ==> m in messages;
      FailureStaysShown(h, next, messages[1..], device, credential);
    }
  }

  lemma {:induction false} EpochsGrow(s: State, messages: seq<Message>)
    ensures s.failureEpoch <= Run(s, messages).failureEpoch
    decreases messages
  {
    if messages != [] {
      EpochsGrow(Step(s, messages[0]), messages[1..]);
    }
  }

  /** A confirmation of another epoch's save leaves the failure recorded and
      shown. */
  lemma OtherEpochConfirmed(
    h: History, s: State, device: string, grants: Grants, startedAt: Option<nat>)
    requires Consistent(h, s) && Truthful(h, GrantsConfirmed(device, grants, startedAt))
    requires grants.credential in s.uncertain && startedAt != Some(s.uncertain[grants.credential].epoch)
    ensures ConfirmGrants(s, device, grants, startedAt).uncertain == s.uncertain
    ensures forall d :: d in ConfirmGrants(s, device, grants, startedAt).devices
                        && d.grants.credential == grants.credential ==>
              d.grants.reviewRequired && d.grants.persistenceError == Some(s.uncertain[grants.credential].error)
  {
    ConfirmKeepsConsistent(h, s, device, grants, startedAt);
  }

  /** A save issued before a failure was observed can never clear that failure,
      however late its confirmation arrives. */
  lemma StaleSaveCannotClear(
    h: History, s: State, between: seq<Message>, device: string, credential: string, error: string,
    after: seq<Message>, grants: Grants)
    requires Consistent(h, s) && AllTruthful(h, between) && AllTruthful(h, after)
    requires Lists(Run(s, between), device, credential)
    requires var failed := MarkUncertain(Run(s, between), device, credential, error);
             && ListedThroughout(failed, after, device, credential)
             && forall m :: m in after ==> !MaySettle(m, credential, failed.failureEpoch)
    requires grants.credential == credential && Truthful(h, GrantsConfirmed(device, grants, None))
    ensures var confirmed := GrantsConfirmed(device, grants, Some(UncertaintyEpoch(s, credential)));
            var t := Run(s, between + [SaveFailed(device, credential, error)] + after + [confirmed]);
            && credential in t.uncertain && t.uncertain[credential].error == error
            && forall d :: d in t.devices && d.grants.credential == credential ==>
                 d.grants.reviewRequired && d.grants.persistenceError == Some(error)
  {
    var startedAt := Some(UncertaintyEpoch(s, credential));
    var u := Run(s, between);
    var f := MarkUncertain(u, device, credential, error);
    RunKeepsConsistent(h, s, between);
    EpochsGrow(s, between);
    FailureKeepsConsistent(h, u, device, credential, error);
    assert f.uncertain[credential] == Failure(u.failureEpoch + 1, error);
    var v := Run(f, after);
    FailureStaysShown(h, f, after, device, credential);
    RunKeepsConsistent(h, f, after);
    OtherEpochConfirmed(h, v, device, grants, startedAt);
    FourPartRun(s, between, SaveFailed(device, credential, error), after, GrantsConfirmed(device, grants, startedAt));
  }

  lemma FourPartRun(s: State, between: seq<Message>, m: Message, after: seq<Message>, last: Message)
    ensures Run(s, between + [m] + after + [last]) == Step(Run(Step(Run(s, between), m), after), last)
  {
    RunAppend(s, between, [m]);
    RunAppend(s, between + [m], after);
    RunAppend(s, between + [m] + after, [last]);
  }

  // ------------------------------------------- what each message does, in fields

  predicate OnlyChanged(before: seq<Device>, after: seq<Device>, k: nat) {
    |after| == |before| && forall j :: 0 <= j < |before| && j != k ==> after[j] == before[j]
  }

  /** The same device, with other grants. */
  predicate SameDevice(d: Device, e: Device) {
    d.id == e.id && d.name == e.name && d.pairedAt == e.pairedAt && d.connected == e.connected
  }

  /** The flag and the error of a credential: its unresolved failure's, or else what the
      Host reported. */
  predicate ShowsFailure(shown: Grants, reported: Grants, uncertain: map<string, Failure>) {
    if reported.credential in uncertain
    then shown.reviewRequired && shown.persistenceError == Some(uncertain[reported.credential].error)
    else shown.reviewRequired == reported.reviewRequired && shown.persistenceError == reported.persistenceError
  }

  predicate SameApproval(shown: Grants, reported: Grants) {
    && shown.credential == reported.credential && shown.sources == reported.sources
    && shown.revision == reported.revision && shown.input == reported.input
  }

  lemma FindsTheDevice(devices: seq<Device>, k: nat)
    requires DistinctIds(devices) && k < |devices|
    ensures FindId(devices, devices[k].id) == k
    ensures FindCredential(devices, devices[k].id, devices[k].grants.credential) == k
  {
  }

  /** A confirmation that is not older than what is listed is shown as it came, under the
      larger state revision. It resolves the recorded failure if its save was issued at
      exactly that failure's epoch; otherwise a recorded failure stays and is shown.
      Other devices, other failures and everything else stay as they were. */
  lemma ConfirmationIsShown(s: State, k: nat, grants: Grants, startedAt: Option<nat>)
    requires DistinctIds(s.devices) && k < |s.devices| && s.devices[k].grants.credential == grants.credential
    requires s.devices[k].grants.revision <= grants.revision
    ensures var t, c, was := ConfirmGrants(s, s.devices[k].id, grants, startedAt), grants.credential, s.devices[k].grants;
            var resolved := c in s.uncertain && startedAt == Some(s.uncertain[c].epoch);
            && OnlyChanged(s.devices, t.devices, k) && SameDevice(t.devices[k], s.devices[k])
            && SameApproval(t.devices[k].grants, grants)
            && t.devices[k].grants.stateRevision ==
                 (if grants.stateRevision >= was.stateRevision then grants.stateRevision else was.stateRevision)
            && ShowsFailure(t.devices[k].grants, grants, t.uncertain)
            && (c in t.uncertain <==> c in s.uncertain && !resolved)
            && (forall o :: o in t.uncertain ==> o in s.uncertain && t.uncertain[o] == s.uncertain[o])
            && (forall o :: o in s.uncertain && o != c ==> o in t.uncertain)
            && t.revision == s.revision && t.removed == s.removed && t.failureEpoch == s.failureEpoch
  {
    FindsTheDevice(s.devices, k);
  }

  /** A confirmation for a device that is not listed, for another credential of it, or
      older than what is listed changes nothing. */
  lemma ConfirmationIsIgnored(s: State, device: string, grants: Grants, startedAt: Option<nat>)
    requires DistinctIds(s.devices)
    requires forall d :: d in s.devices && d.id == device ==>
               d.grants.credential != grants.credential || d.grants.revision > grants.revision
    ensures ConfirmGrants(s, device, grants, startedAt) == s
  {
    var i := FindId(s.devices, device);
    assert i < |s.devices| ==> s.devices[i] in s.devices;
  }

  /** A failed save of a listed credential is recorded under the next epoch and shown at
      once; nothing else changes. One of a credential that is not listed is forgotten. */
  lemma FailureIsRecorded(s: State, k: nat, error: string)
    requires DistinctIds(s.devices) && k < |s.devices|
    ensures var was, c := s.devices[k].grants, s.devices[k].grants.credential;
            var t := MarkUncertain(s, s.devices[k].id, c, error);
            && t.failureEpoch == s.failureEpoch + 1
            && c in t.uncertain && t.uncertain[c] == Failure(s.failureEpoch + 1, error)
            && (forall o :: o != c ==> (o in t.uncertain <==> o in s.uncertain))
            && (forall o :: o != c && o in s.uncertain ==> t.uncertain[o] == s.uncertain[o])
            && OnlyChanged(s.devices, t.devices, k) && SameDevice(t.devices[k], s.devices[k])
            && SameApproval(t.devices[k].grants, was) && t.devices[k].grants.stateRevision == was.stateRevision
            && t.devices[k].grants.reviewRequired && t.devices[k].grants.persistenceError == Some(error)
            && t.revision == s.revision && t.removed == s.removed
  {
    FindsTheDevice(s.devices, k);
  }

  /** What a revoke outcome takes away: exactly the credentials it names, if it is newer
      than the last complete snapshot, and those already known removed. */
  predicate TakenAway(s: State, outcome: RevokeOutcome, credential: string) {
    || credential in s.removed
    || (outcome.stateRevision > s.revision
        && exists i :: 0 <= i < |outcome.removed| && outcome.removed[i].credential == credential)
  }

  lemma RevokeIsApplied(s: State, outcome: RevokeOutcome)
    ensures var t := ReceiveRevoke(s, outcome);
            && (forall d :: d in t.devices <==> d in s.devices && !TakenAway(s, outcome, d.grants.credential))
            && (forall c :: c in t.removed <==> TakenAway(s, outcome, c))
            && (forall c :: c in t.uncertain ==> c in s.uncertain && t.uncertain[c] == s.uncertain[c])
            && (forall c :: c in s.uncertain && !TakenAway(s, outcome, c) ==> c in t.uncertain)
            && t.revision == s.revision && t.failureEpoch == s.failureEpoch
  {
    NamedCredentials(outcome);
    VisibleExactly(s.devices, Tombstones(s, outcome), |s.devices|);
    assert s.devices[..|s.devices|] == s.devices;
  }

  lemma NamedCredentials(outcome: RevokeOutcome)
    ensures forall c :: c in RemovedCredentials(outcome) <==>
              exists i :: 0 <= i < |outcome.removed| && outcome.removed[i].credential == c
  {
    forall c
      ensures c in RemovedCredentials(outcome) <==>
                exists i :: 0 <= i < |outcome.removed| && outcome.removed[i].credential == c
    {
      if i :| 0 <= i < |outcome.removed| && outcome.removed[i].credential == c {
        assert outcome.removed[i] in outcome.removed;
      }
    }
  }

  lemma {:induction false} VisibleExactly(devices: seq<Device>, removed: map<string, int>, n: nat)
    requires n <= |devices|
    ensures forall d :: d in Visible(devices, removed, n) <==> d in devices[..n] && d.grants.credential !in removed
  {
    if n > 0 {
      VisibleExactly(devices, removed, n - 1);
      assert devices[..n] == devices[..n - 1] + [devices[n - 1]];
    }
  }

  /** The error a revoke reports is shown; without one, an outcome at least as new as the
      last clears what was shown. */
  lemma RevokeErrorsAreShown(s: State, outcome: RevokeOutcome)
    ensures var t, errors := ReceiveRevoke(s, outcome), outcome.persistenceErrors;
            && (errors == [] || errors == [""] ==>
                  t.administrativeError == if outcome.stateRevision >= s.administrativeRevision then None
                                           else s.administrativeError)
            && (|errors| == 1 && errors[0] != "" ==> t.administrativeError == Some(errors[0]))
            && (|errors| == 2 ==> t.administrativeError == Some(errors[0] + "\n" + errors[1]))
            && (|errors| >= 2 ==> t.administrativeError.Some?)
            && t.administrativeRevision >= s.administrativeRevision && t.administrativeRevision >= outcome.stateRevision
            && (t.administrativeRevision == s.administrativeRevision || t.administrativeRevision == outcome.stateRevision)
  {
    if |outcome.persistenceErrors| == 2 {
      JoinOfTwo(outcome.persistenceErrors[0], outcome.persistenceErrors[1]);
      assert outcome.persistenceErrors == [outcome.persistenceErrors[0], outcome.persistenceErrors[1]];
    }
  }

  /** A device of an accepted snapshot as it is shown: the listed one if that is known to
      be newer than the snapshot; otherwise the snapshot's, with the listed grants where
      those of the same credential are newer, and with an unresolved failure. */
  predicate ShownFrom(s: State, revision: int, d: Device, e: Device) {
    if exists p :: p in s.devices && p.id == d.id && p.grants.stateRevision > revision
    then e in s.devices && e.id == d.id
    else
      && SameDevice(e, d) && e.grants.credential == d.grants.credential
      && if exists p :: p in s.devices && p.id == d.id && p.grants.credential == d.grants.credential
                        && p.grants.revision > d.grants.revision
         then exists p :: p in s.devices && p.id == d.id
                          && SameApproval(e.grants, p.grants) && ShowsFailure(e.grants, p.grants, s.uncertain)
         else SameApproval(e.grants, d.grants) && ShowsFailure(e.grants, d.grants, s.uncertain)
  }

  lemma SettledIsShown(s: State, revision: int, d: Device)
    requires DistinctIds(s.devices)
    ensures ShownFrom(s, revision, d, Settled(s, revision, d))
  {
    var i := FindId(s.devices, d.id);
    if i < |s.devices| {
      assert s.devices[i] in s.devices;
      forall p | p in s.devices && p.id == d.id
        ensures p == s.devices[i]
      {
      }
    }
  }

  lemma JoinOfTwo(a: string, b: string)
    ensures Join([a, b]) == a + "\n" + b
  {
    assert [a, b][1..] == [b] && Join([b]) == b;
  }

  predicate StillRemoved(snapshot: Snapshot, credential: string, revision: int) {
    snapshot.revision < revision || exists d :: d in snapshot.devices && d.grants.credential == credential
  }

  /** An accepted snapshot shows every device of it whose credential is not known removed,
      and beside them exactly the listed devices known to be newer. A failure is kept while
      its credential is shown; a removal is forgotten once the snapshot, as new as it, no
      longer lists its credential. */
  lemma SnapshotIsShown(s: State, snapshot: Snapshot)
    requires DistinctIds(s.devices) && DistinctIds(snapshot.devices) && s.revision <= snapshot.revision
    ensures var t := ReceiveSnapshot(s, snapshot);
            && t.revision == snapshot.revision
            && (forall d :: d in snapshot.devices && d.grants.credential !in s.removed ==>
                  exists e :: e in t.devices && ShownFrom(s, snapshot.revision, d, e))
            && (forall e :: e in t.devices ==>
                  || (exists d :: d in snapshot.devices && d.grants.credential !in s.removed
                                  && ShownFrom(s, snapshot.revision, d, e))
                  || (e in s.devices && e.grants.stateRevision > snapshot.revision))
            && (forall c :: c in t.uncertain <==> c in s.uncertain && exists e :: e in t.devices && e.grants.credential == c)
            && (forall c :: c in t.uncertain ==> t.uncertain[c] == s.uncertain[c])
            && (forall c :: c in t.removed <==> (c in s.removed && StillRemoved(snapshot, c, s.removed[c])))
  {
    var n := |snapshot.devices|;
    ResultOrigin(s, snapshot);
    IndexOfDistinct(s.devices, |s.devices|);
    assert s.devices[..|s.devices|] == s.devices;
    MergeFacts(s, snapshot, n);
    forall d | d in snapshot.devices && d.grants.credential !in s.removed
      ensures exists e :: e in MergedDevices(s, snapshot) && ShownFrom(s, snapshot.revision, d, e)
    {
      SettledIsShown(s, snapshot.revision, d);
      EverySettledIsThere(s, snapshot, n, d);
      assert Settled(s, snapshot.revision, d) in MergedDevices(s, snapshot);
    }
    forall e | e in MergedDevices(s, snapshot)
      ensures (exists d :: d in snapshot.devices && d.grants.credential !in s.removed
                           && ShownFrom(s, snapshot.revision, d, e))
           || (e in s.devices && e.grants.stateRevision > snapshot.revision)
    {
      if source :| KeptBySnapshot(s, snapshot, source, e) {
        SettledIsShown(s, snapshot.revision, source);
      }
    }
  }

  /** A listed device known to be newer than an accepted snapshot stays as it is, whether
      or not the snapshot lists it. */
  lemma NewerIsKept(s: State, snapshot: Snapshot, p: Device)
    requires DistinctIds(s.devices) && DistinctIds(snapshot.devices) && s.revision <= snapshot.revision
    requires p in s.devices && p.grants.stateRevision > snapshot.revision
    ensures p in ReceiveSnapshot(s, snapshot).devices
  {
    var n := |snapshot.devices|;
    var taken := Merge(s, s.devices, snapshot, n).taken;
    MergedInParts(s, snapshot);
    if p.id in taken {
      var k := TakenBySettled(s, snapshot, n, p.id);
      NewerIsSettled(s, snapshot.revision, p, snapshot.devices[k]);
      EverySettledIsThere(s, snapshot, n, snapshot.devices[k]);
    } else {
      NewerIsAppended(s.devices, taken, snapshot.revision, |s.devices|, p);
    }
  }

  lemma MergedInParts(s: State, snapshot: Snapshot)
    requires DistinctIds(s.devices) && DistinctIds(snapshot.devices)
    ensures MergedDevices(s, snapshot) ==
            SettledUpTo(s, snapshot, |snapshot.devices|)
            + NewerUntaken(s.devices, Merge(s, s.devices, snapshot, |snapshot.devices|).taken, snapshot.revision, |s.devices|)
  {
    IndexOfDistinct(s.devices, |s.devices|);
    assert s.devices[..|s.devices|] == s.devices;
    MergeFacts(s, snapshot, |snapshot.devices|);
  }

  lemma NewerIsSettled(s: State, revision: int, p: Device, d: Device)
    requires DistinctIds(s.devices) && p in s.devices && p.id == d.id && p.grants.stateRevision > revision
    ensures Settled(s, revision, d) == p
  {
    var i := FindId(s.devices, d.id);
    assert s.devices[i] == p;
  }

  lemma {:induction false} TakenBySettled(s: State, snapshot: Snapshot, n: nat, id: string) returns (k: nat)
    requires n <= |snapshot.devices| && id in Merge(s, s.devices, snapshot, n).taken
    ensures k < n && snapshot.devices[k].id == id && snapshot.devices[k].grants.credential !in s.removed
  {
    if id in Merge(s, s.devices, snapshot, n - 1).taken {
      k := TakenBySettled(s, snapshot, n - 1, id);
    } else {
      k := n - 1;
    }
  }

  lemma {:induction false} NewerIsAppended(previous: seq<Device>, taken: set<string>, revision: int, n: nat, p: Device)
    requires n <= |previous| && p in previous[..n] && p.id !in taken && p.grants.stateRevision > revision
    ensures p in NewerUntaken(previous, taken, revision, n)
  {
    if p != previous[n - 1] {
      assert previous[..n] == previous[..n - 1] + [previous[n - 1]];
      NewerIsAppended(previous, taken, revision, n - 1, p);
    }
  }

  lemma {:induction false} EverySettledIsThere(s: State, snapshot: Snapshot, n: nat, d: Device)
    requires n <= |snapshot.devices| && d in snapshot.devices[..n] && d.grants.credential !in s.removed
    ensures Settled(s, snapshot.revision, d) in SettledUpTo(s, snapshot, n)
  {
    if d != snapshot.devices[n - 1] {
      assert snapshot.devices[..n] == snapshot.devices[..n - 1] + [snapshot.devices[n - 1]];
      EverySettledIsThere(s, snapshot, n - 1, d);
    }
  }

  /** A save issued after the failure was recorded clears it when it is confirmed, however
      many other messages arrive in between: the flag and the error are the reply's own
      again. */
  lemma LaterSaveClears(
    h: History, s: State, k: nat, error: string, after: seq<Message>, j: nat, grants: Grants)
    requires Consistent(h, s) && AllTruthful(h, after) && k < |s.devices|
    requires var c := s.devices[k].grants.credential;
             var failed := MarkUncertain(s, s.devices[k].id, c, error);
             && ListedThroughout(failed, after, s.devices[k].id, c)
             && (forall m :: m in after ==> !MaySettle(m, c, failed.failureEpoch))
             && grants.credential == c
             && j < |Run(failed, after).devices| && Run(failed, after).devices[j].grants.credential == c
             && Run(failed, after).devices[j].grants.revision <= grants.revision
    ensures var c := s.devices[k].grants.credential;
            var failed := MarkUncertain(s, s.devices[k].id, c, error);
            var v := Run(failed, after);
            var t := ConfirmGrants(v, v.devices[j].id, grants, Some(UncertaintyEpoch(failed, c)));
            && c !in t.uncertain && j < |t.devices| && SameApproval(t.devices[j].grants, grants)
            && t.devices[j].grants.reviewRequired == grants.reviewRequired
            && t.devices[j].grants.persistenceError == grants.persistenceError
  {
    var c := s.devices[k].grants.credential;
    var failed := MarkUncertain(s, s.devices[k].id, c, error);
    FailureIsRecorded(s, k, error);
    FailureKeepsConsistent(h, s, s.devices[k].id, c, error);
    FailureStaysShown(h, failed, after, s.devices[k].id, c);
    RunKeepsConsistent(h, failed, after);
    ConfirmationIsShown(Run(failed, after), j, grants, Some(UncertaintyEpoch(failed, c)));
  }
}

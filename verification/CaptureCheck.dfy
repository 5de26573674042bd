/**
  Whether an image captures its source: one snapshot for every EBS device of the source, no more and no
  less, each one observed with the right owner and the right volume.
 */
module CaptureCheck {
  import opened Common

  datatype Mapping = Mapping(ebs: bool, device: string, snapshot: string)

  datatype SnapshotState = Pending | Completed | Broken | Other

  datatype Snapshot = Snapshot(id: string, owner: string, volume: string, state: SnapshotState)

  datatype SnapshotAnswer = Snapshots(list: seq<Snapshot>) | SnapshotsNotFound | SnapshotsUnreadable

  /** `Yes`, not yet, or a definite mismatch. */
  datatype Verdict = Yes | NotYet | Mismatch

  // ----- what is to be established -----

  /** Every EBS mapping names a source device of its own and a snapshot of its own; every source device is
      named. */
  ghost predicate MapsExactly(ms: seq<Mapping>, devices: map<string, string>) {
    && Nonempty(ms, devices) && PairwiseDistinct(ms)
    && (forall device | device in devices :: exists i :: 0 <= i < |ms| && ms[i].ebs && ms[i].device == device)
  }

  /** The snapshot is the one of a mapped device, and is what it should be. */
  predicate Backs(s: Snapshot, m: Mapping, devices: map<string, string>, account: string) {
    && m.ebs && s.id == m.snapshot && m.device in devices && s.volume == devices[m.device]
    && s.owner == account && (s.state == Pending || s.state == Completed)
  }

  /** Every mapped snapshot was observed once, as it should be, and nothing else was. */
  ghost predicate ObservedExactly(list: seq<Snapshot>, ms: seq<Mapping>, devices: map<string, string>,
                                  account: string) {
    && DistinctIds(list)
    && (forall s | s in list :: exists m :: m in ms && Backs(s, m, devices, account))
    && (forall m | m in ms && m.ebs :: exists s :: s in list && Backs(s, m, devices, account))
  }

  // ----- the first loop -----

  function Devices(ms: seq<Mapping>): set<string> {
    if ms == [] then {}
    else Devices(ms[..|ms| - 1]) + if ms[|ms| - 1].ebs then {ms[|ms| - 1].device} else {}
  }

  /** The volume each mapped snapshot must come from. */
  function Volumes(ms: seq<Mapping>, devices: map<string, string>): map<string, string> {
    if ms == [] then map[]
    else
      var front, m := Volumes(ms[..|ms| - 1], devices), ms[|ms| - 1];
      if m.ebs && m.device in devices then front[m.snapshot := devices[m.device]] else front
  }

  /** The mapping can be added to those before it. */
  predicate Fits(ms: seq<Mapping>, m: Mapping, devices: map<string, string>) {
    m.ebs ==>
      && m.device in devices && devices[m.device] != "" && m.device !in Devices(ms)
      && m.snapshot != "" && m.snapshot !in Volumes(ms, devices)
  }

  predicate AllFit(ms: seq<Mapping>, devices: map<string, string>) {
    ms == [] || (AllFit(ms[..|ms| - 1], devices) && Fits(ms[..|ms| - 1], ms[|ms| - 1], devices))
  }

  /** The first mapping that does not fit. */
  predicate StopsAt(ms: seq<Mapping>, devices: map<string, string>, i: int) {
    0 <= i < |ms| && AllFit(ms[..i], devices) && !Fits(ms[..i], ms[i], devices)
  }

  /** It names a source device that no mapping before it named. */
  predicate OwnDevice(ms: seq<Mapping>, m: Mapping, devices: map<string, string>) {
    m.device in devices && devices[m.device] != "" && m.device !in Devices(ms)
  }

  /** The first misfit is a mapping of its own device that has no snapshot yet. */
  ghost predicate StopsUndecided(ms: seq<Mapping>, devices: map<string, string>) {
    exists i :: StopsAt(ms, devices, i) && OwnDevice(ms[..i], ms[i], devices) && ms[i].snapshot == ""
  }

  /** The first misfit contradicts the source: a foreign or repeated device, or a reused snapshot. */
  ghost predicate StopsDifferent(ms: seq<Mapping>, devices: map<string, string>) {
    exists i :: StopsAt(ms, devices, i) && (OwnDevice(ms[..i], ms[i], devices) ==> ms[i].snapshot != "")
  }

  lemma StopsOnce(ms: seq<Mapping>, devices: map<string, string>, i: int, j: int)
    requires StopsAt(ms, devices, i) && StopsAt(ms, devices, j)
    ensures i == j
  {
    if i < j {
      assert ms[..j][..i] == ms[..i];
      UnfitStays(ms[..j], devices, i);
    } else if j < i {
      assert ms[..i][..j] == ms[..j];
      UnfitStays(ms[..i], devices, j);
    }
  }

  lemma OneStop(ms: seq<Mapping>, devices: map<string, string>)
    ensures !(StopsUndecided(ms, devices) && StopsDifferent(ms, devices))
    ensures AllFit(ms, devices) ==> !StopsUndecided(ms, devices) && !StopsDifferent(ms, devices)
  {
    forall i, j | StopsAt(ms, devices, i) && StopsAt(ms, devices, j)
      ensures i == j
    {
      StopsOnce(ms, devices, i, j);
    }
    forall i | StopsAt(ms, devices, i)
      ensures !AllFit(ms, devices)
    {
      UnfitStays(ms, devices, i);
    }
  }

  datatype MappingResult = Known(volumes: map<string, string>, seen: set<string>) | Undecided | Different

  method ReadMappings(ms: seq<Mapping>, devices: map<string, string>) returns (r: MappingResult)
    ensures r.Known? <==> AllFit(ms, devices)
    ensures r.Known? ==> r.volumes == Volumes(ms, devices) && r.seen == Devices(ms)
    ensures r == Undecided <==> StopsUndecided(ms, devices)
    ensures r == Different <==> StopsDifferent(ms, devices)
  {
    OneStop(ms, devices);
    var volumes: map<string, string> := map[];
    var seen: set<string> := {};
    var i := 0;
    while i < |ms|
      invariant 0 <= i <= |ms| && AllFit(ms[..i], devices)
      invariant volumes == Volumes(ms[..i], devices) && seen == Devices(ms[..i])
    {
      var m := ms[i];
      assert ms[..i + 1][..i] == ms[..i];
      if m.ebs {
        var volume := if m.device in devices then devices[m.device] else "";
        if volume == "" || m.device in seen {
          UnfitStays(ms, devices, i);
          assert StopsAt(ms, devices, i);
          return Different;
        }
        seen := seen + {m.device};
        if m.snapshot == "" {
          UnfitStays(ms, devices, i);
          assert StopsAt(ms, devices, i);
          return Undecided;
        }
        if m.snapshot in volumes {
          UnfitStays(ms, devices, i);
          assert StopsAt(ms, devices, i);
          return Different;
        }
        volumes := volumes[m.snapshot := volume];
      }
      i := i + 1;
    }
    assert ms[..i] == ms;
    r := Known(volumes, seen);
  }

  lemma {:induction false} UnfitStays(ms: seq<Mapping>, devices: map<string, string>, i: nat)
    requires i < |ms| && !Fits(ms[..i], ms[i], devices)
    ensures !AllFit(ms, devices)
    decreases |ms|
  {
    var n := |ms| - 1;
    if i < n {
      assert ms[..n][..i] == ms[..i];
      UnfitStays(ms[..n], devices, i);
    }
  }

  // ----- what the first loop establishes -----

  lemma {:induction false} DevicesAre(ms: seq<Mapping>, device: string)
    ensures device in Devices(ms) <==> exists i :: 0 <= i < |ms| && ms[i].ebs && ms[i].device == device
    decreases |ms|
  {
    if ms != [] {
      var n := |ms| - 1;
      DevicesAre(ms[..n], device);
      if i :| 0 <= i < |ms| && ms[i].ebs && ms[i].device == device {
        assert i < n ==> ms[..n][i] == ms[i];
      }
    }
  }

  /** Whose snapshot it is. */
  ghost predicate MapsTo(ms: seq<Mapping>, devices: map<string, string>, id: string, i: int) {
    0 <= i < |ms| && ms[i].ebs && ms[i].device in devices && ms[i].snapshot == id
  }

  lemma {:induction false} VolumesAre(ms: seq<Mapping>, devices: map<string, string>, id: string)
    ensures id in Volumes(ms, devices) <==> exists i :: MapsTo(ms, devices, id, i)
    decreases |ms|
  {
    if ms != [] {
      var n := |ms| - 1;
      VolumesAre(ms[..n], devices, id);
      if i :| MapsTo(ms, devices, id, i) {
        assert i < n ==> MapsTo(ms[..n], devices, id, i);
      }
      if i :| MapsTo(ms[..n], devices, id, i) {
        assert MapsTo(ms, devices, id, i);
      }
      assert ms[n].ebs && ms[n].device in devices && ms[n].snapshot == id ==> MapsTo(ms, devices, id, n);
    }
  }

  lemma {:induction false} VolumeOf(ms: seq<Mapping>, devices: map<string, string>, i: nat)
    requires AllFit(ms, devices) && i < |ms| && ms[i].ebs
    ensures ms[i].snapshot != "" && ms[i].device in devices && devices[ms[i].device] != ""
    ensures ms[i].snapshot in Volumes(ms, devices) && Volumes(ms, devices)[ms[i].snapshot] == devices[ms[i].device]
    decreases |ms|
  {
    var n := |ms| - 1;
    if i < n {
      assert ms[..n][i] == ms[i];
      VolumeOf(ms[..n], devices, i);
    }
  }

  ghost predicate PairwiseDistinct(ms: seq<Mapping>) {
    forall i, j | 0 <= i < j < |ms| && ms[i].ebs && ms[j].ebs ::
      ms[i].device != ms[j].device && ms[i].snapshot != ms[j].snapshot
  }

  predicate Complete(m: Mapping, devices: map<string, string>) {
    m.ebs ==> m.device in devices && devices[m.device] != "" && m.snapshot != ""
  }

  ghost predicate Nonempty(ms: seq<Mapping>, devices: map<string, string>) {
    forall i | 0 <= i < |ms| :: Complete(ms[i], devices)
  }

  lemma {:induction false} AllFitIff(ms: seq<Mapping>, devices: map<string, string>)
    ensures AllFit(ms, devices) <==> Nonempty(ms, devices) && PairwiseDistinct(ms)
    decreases |ms|
  {
    if ms != [] {
      var n := |ms| - 1;
      var front, m := ms[..n], ms[n];
      AllFitIff(front, devices);
      if Nonempty(front, devices) {
        FitsIff(front, m, devices);
      }
      SplitLast(ms, devices);
    }
  }

  ghost predicate Differs(ms: seq<Mapping>, m: Mapping) {
    m.ebs ==> forall i | 0 <= i < |ms| && ms[i].ebs :: ms[i].device != m.device && ms[i].snapshot != m.snapshot
  }

  lemma FitsIff(ms: seq<Mapping>, m: Mapping, devices: map<string, string>)
    requires Nonempty(ms, devices)
    ensures Fits(ms, m, devices) <==>
            Complete(m, devices) && Differs(ms, m)
  {
    DevicesAre(ms, m.device);
    VolumesAre(ms, devices, m.snapshot);
    if i :| 0 <= i < |ms| && ms[i].ebs && ms[i].snapshot == m.snapshot {
      assert MapsTo(ms, devices, m.snapshot, i);
    }
  }

  lemma SplitLast(ms: seq<Mapping>, devices: map<string, string>)
    requires ms != []
    ensures var n := |ms| - 1;
            && (PairwiseDistinct(ms) <==> PairwiseDistinct(ms[..n]) && Differs(ms[..n], ms[n]))
            && (Nonempty(ms, devices) <==> (Nonempty(ms[..n], devices) && Complete(ms[n], devices)))
  {
    var n := |ms| - 1;
    assert forall i | 0 <= i < n :: ms[..n][i] == ms[i];
  }

  lemma {:induction false} DevicesAreSource(ms: seq<Mapping>, devices: map<string, string>)
    requires AllFit(ms, devices)
    ensures Devices(ms) <= devices.Keys
    decreases |ms|
  {
    if ms != [] {
      DevicesAreSource(ms[..|ms| - 1], devices);
    }
  }

  lemma {:induction false} SameSize(a: set<string>, b: set<string>)
    requires a <= b
    ensures |a| <= |b| && (|a| == |b| <==> a == b)
    decreases |a|
  {
    if a != {} {
      var x :| x in a;
      SameSize(a - {x}, b - {x});
      assert (a - {x}) + {x} == a && (b - {x}) + {x} == b;
    }
  }

  /** Counting is enough: the mapping is exact when everything fits and as many devices were seen. */
  lemma MapsExactlyIff(ms: seq<Mapping>, devices: map<string, string>)
    ensures MapsExactly(ms, devices) <==> AllFit(ms, devices) && |Devices(ms)| == |devices|
  {
    AllFitIff(ms, devices);
    forall device | device in devices
      ensures device in Devices(ms) <==> exists i :: 0 <= i < |ms| && ms[i].ebs && ms[i].device == device
    {
      DevicesAre(ms, device);
    }
    if AllFit(ms, devices) {
      DevicesAreSource(ms, devices);
      SameSize(Devices(ms), devices.Keys);
    }
  }

  // ----- the second loop -----

  function Ids(list: seq<Snapshot>): set<string> {
    if list == [] then {} else Ids(list[..|list| - 1]) + {list[|list| - 1].id}
  }

  predicate Matches(s: Snapshot, volumes: map<string, string>, account: string) {
    s.id in volumes && volumes[s.id] != "" && s.owner == account && s.volume == volumes[s.id]
  }

  predicate Sound(s: Snapshot) {
    s.state == Pending || s.state == Completed
  }

  predicate AllMatch(list: seq<Snapshot>, volumes: map<string, string>, account: string) {
    list == [] ||
    (var front, s := list[..|list| - 1], list[|list| - 1];
     AllMatch(front, volumes, account) && Matches(s, volumes, account) && s.id !in Ids(front) && Sound(s))
  }

  predicate Acceptable(list: seq<Snapshot>, i: nat, volumes: map<string, string>, account: string)
    requires i < |list|
  {
    Matches(list[i], volumes, account) && list[i].id !in Ids(list[..i]) && Sound(list[i])
  }

  /** The first snapshot that is not as it should be. */
  predicate FailsAt(list: seq<Snapshot>, volumes: map<string, string>, account: string, i: int) {
    0 <= i < |list| && AllMatch(list[..i], volumes, account) && !Acceptable(list, i, volumes, account)
  }

  /** It contradicts the mapping or is broken; one in another state is only not there yet. */
  ghost predicate FailsMatching(list: seq<Snapshot>, volumes: map<string, string>, account: string) {
    exists i :: FailsAt(list, volumes, account, i) &&
                (Matches(list[i], volumes, account) && list[i].id !in Ids(list[..i]) ==> list[i].state == Broken)
  }

  lemma FailsOnce(list: seq<Snapshot>, volumes: map<string, string>, account: string, i: int, j: int)
    requires FailsAt(list, volumes, account, i) && FailsAt(list, volumes, account, j)
    ensures i == j
  {
    if i < j {
      assert list[..j][..i] == list[..i];
      UnmatchedStays(list[..j], volumes, account, i);
    } else if j < i {
      assert list[..i][..j] == list[..j];
      UnmatchedStays(list[..i], volumes, account, j);
    }
  }

  lemma OneFailure(list: seq<Snapshot>, volumes: map<string, string>, account: string)
    ensures forall i, j | FailsAt(list, volumes, account, i) && FailsAt(list, volumes, account, j) :: i == j
    ensures AllMatch(list, volumes, account) ==> !FailsMatching(list, volumes, account)
  {
    forall i, j | FailsAt(list, volumes, account, i) && FailsAt(list, volumes, account, j)
      ensures i == j
    {
      FailsOnce(list, volumes, account, i, j);
    }
    forall i | FailsAt(list, volumes, account, i)
      ensures !AllMatch(list, volumes, account)
    {
      UnmatchedStays(list, volumes, account, i);
    }
  }

  method ReadSnapshots(list: seq<Snapshot>, volumes: map<string, string>, account: string) returns (v: Verdict)
    ensures v == Yes <==> AllMatch(list, volumes, account) && |Ids(list)| == |volumes|
    ensures v == Mismatch <==> FailsMatching(list, volumes, account)
  {
    OneFailure(list, volumes, account);
    var seen: set<string> := {};
    var i := 0;
    while i < |list|
      invariant 0 <= i <= |list| && AllMatch(list[..i], volumes, account) && seen == Ids(list[..i])
    {
      var s := list[i];
      assert list[..i + 1][..i] == list[..i];
      if !Matches(s, volumes, account) || s.id in seen {
        UnmatchedStays(list, volumes, account, i);
        assert FailsAt(list, volumes, account, i);
        return Mismatch;
      }
      seen := seen + {s.id};
      if s.state == Broken {
        UnmatchedStays(list, volumes, account, i);
        assert FailsAt(list, volumes, account, i);
        return Mismatch;
      }
      if s.state == Other {
        UnmatchedStays(list, volumes, account, i);
        assert FailsAt(list, volumes, account, i);
        return NotYet;
      }
      i := i + 1;
    }
    assert list[..i] == list;
    v := if |seen| == |volumes| then Yes else NotYet;
  }

  lemma {:induction false} UnmatchedStays(list: seq<Snapshot>, volumes: map<string, string>, account: string, i: nat)
    requires i < |list| && (!Matches(list[i], volumes, account) || list[i].id in Ids(list[..i]) || !Sound(list[i]))
    ensures !AllMatch(list, volumes, account)
    decreases |list|
  {
    var n := |list| - 1;
    if i < n {
      assert list[..n][..i] == list[..i];
      UnmatchedStays(list[..n], volumes, account, i);
    }
  }

  // ----- what the second loop establishes -----

  lemma {:induction false} IdsAre(list: seq<Snapshot>, id: string)
    ensures id in Ids(list) <==> exists i :: 0 <= i < |list| && list[i].id == id
    decreases |list|
  {
    if list != [] {
      var n := |list| - 1;
      IdsAre(list[..n], id);
      if i :| 0 <= i < |list| && list[i].id == id {
        assert i < n ==> list[..n][i] == list[i];
      }
    }
  }

  ghost predicate DistinctIds(list: seq<Snapshot>) {
    forall i, j | 0 <= i < j < |list| :: list[i].id != list[j].id
  }

  ghost predicate EachMatches(list: seq<Snapshot>, volumes: map<string, string>, account: string) {
    forall i | 0 <= i < |list| :: Matches(list[i], volumes, account) && Sound(list[i])
  }

  lemma {:induction false} AllMatchIff(list: seq<Snapshot>, volumes: map<string, string>, account: string)
    ensures AllMatch(list, volumes, account) <==> EachMatches(list, volumes, account) && DistinctIds(list)
    decreases |list|
  {
    if list != [] {
      var n := |list| - 1;
      var front, s := list[..n], list[n];
      AllMatchIff(front, volumes, account);
      IdsAre(front, s.id);
      assert forall i | 0 <= i < n :: front[i] == list[i];
    }
  }

  lemma {:induction false} IdsAreMapped(list: seq<Snapshot>, volumes: map<string, string>, account: string)
    requires AllMatch(list, volumes, account)
    ensures Ids(list) <= volumes.Keys
    decreases |list|
  {
    if list != [] {
      IdsAreMapped(list[..|list| - 1], volumes, account);
    }
  }

  lemma BackedIsMatched(s: Snapshot, ms: seq<Mapping>, devices: map<string, string>, account: string)
    requires AllFit(ms, devices)
    ensures (exists m :: m in ms && Backs(s, m, devices, account)) <==>
            (Matches(s, Volumes(ms, devices), account) && Sound(s))
  {
    if m :| m in ms && Backs(s, m, devices, account) {
      var i :| 0 <= i < |ms| && ms[i] == m;
      VolumeOf(ms, devices, i);
    }
    if Matches(s, Volumes(ms, devices), account) && Sound(s) {
      VolumesAre(ms, devices, s.id);
      var i :| MapsTo(ms, devices, s.id, i);
      VolumeOf(ms, devices, i);
      assert ms[i] in ms && Backs(s, ms[i], devices, account);
    }
  }

  lemma EachIsBacked(list: seq<Snapshot>, ms: seq<Mapping>, devices: map<string, string>, account: string)
    requires AllFit(ms, devices)
    ensures (forall s | s in list :: exists m :: m in ms && Backs(s, m, devices, account)) <==>
            EachMatches(list, Volumes(ms, devices), account)
  {
    forall s | s in list
      ensures (exists m :: m in ms && Backs(s, m, devices, account)) <==>
              (Matches(s, Volumes(ms, devices), account) && Sound(s))
    {
      BackedIsMatched(s, ms, devices, account);
    }
    if EachMatches(list, Volumes(ms, devices), account) {
      forall s | s in list
        ensures Matches(s, Volumes(ms, devices), account) && Sound(s)
      {
        var i :| 0 <= i < |list| && list[i] == s;
      }
    }
    assert forall i | 0 <= i < |list| :: list[i] in list;
  }

  /** Among matching snapshots, every mapping has its own exactly when every mapped id was seen. */
  lemma EveryMappingIsBacked(list: seq<Snapshot>, ms: seq<Mapping>, devices: map<string, string>, account: string)
    requires AllFit(ms, devices) && AllMatch(list, Volumes(ms, devices), account)
    ensures (forall m | m in ms && m.ebs :: exists s :: s in list && Backs(s, m, devices, account)) <==>
            Volumes(ms, devices).Keys <= Ids(list)
  {
    var volumes := Volumes(ms, devices);
    AllMatchIff(list, volumes, account);
    if forall m | m in ms && m.ebs :: exists s :: s in list && Backs(s, m, devices, account) {
      forall id | id in volumes
        ensures id in Ids(list)
      {
        VolumesAre(ms, devices, id);
        var i :| MapsTo(ms, devices, id, i);
        assert ms[i] in ms;
        var s :| s in list && Backs(s, ms[i], devices, account);
        IdsAre(list, id);
      }
    }
    if volumes.Keys <= Ids(list) {
      forall m | m in ms && m.ebs
        ensures exists s :: s in list && Backs(s, m, devices, account)
      {
        var i :| 0 <= i < |ms| && ms[i] == m;
        VolumeOf(ms, devices, i);
        IdsAre(list, m.snapshot);
        var k :| 0 <= k < |list| && list[k].id == m.snapshot;
        assert list[k] in list && Backs(list[k], m, devices, account);
      }
    }
  }

  lemma ObservedExactlyIff(list: seq<Snapshot>, ms: seq<Mapping>, devices: map<string, string>, account: string)
    requires AllFit(ms, devices)
    ensures ObservedExactly(list, ms, devices, account) <==>
            (AllMatch(list, Volumes(ms, devices), account) && |Ids(list)| == |Volumes(ms, devices)|)
  {
    var volumes := Volumes(ms, devices);
    EachIsBacked(list, ms, devices, account);
    AllMatchIff(list, volumes, account);
    if AllMatch(list, volumes, account) {
      EveryMappingIsBacked(list, ms, devices, account);
      IdsAreMapped(list, volumes, account);
      SameSize(Ids(list), volumes.Keys);
    }
  }

  // ----- both loops together -----

  /** The capture is reported established exactly when the image maps exactly the source's devices, one
      snapshot each, and exactly those snapshots were observed as they should be. */
  method SnapshotsEstablished(ms: seq<Mapping>, devices: map<string, string>, account: string, answer: SnapshotAnswer)
    returns (v: Verdict)
    ensures v == Yes <==> Established(ms, devices, account, answer)
    ensures v == Mismatch <==> Contradicted(ms, devices, account, answer)
  {
    OneStop(ms, devices);
    MapsExactlyIff(ms, devices);
    var mapped := ReadMappings(ms, devices);
    if mapped == Different {
      return Mismatch;
    }
    if mapped == Undecided || |mapped.seen| != |devices| {
      return NotYet;
    }
    match answer
    case SnapshotsNotFound =>
      v := NotYet;
    case SnapshotsUnreadable =>
      v := Mismatch;
    case Snapshots(list) =>
      ObservedExactlyIff(list, ms, devices, account);
      v := ReadSnapshots(list, mapped.volumes, account);
  }

  /** What was read can never become an established capture: the mapping differs from the source, or, once it
      is exact, the snapshots cannot be read or are not what they should be. */
  ghost predicate Contradicted(ms: seq<Mapping>, devices: map<string, string>, account: string,
                               answer: SnapshotAnswer) {
    || StopsDifferent(ms, devices)
    || (MapsExactly(ms, devices) &&
        (answer.SnapshotsUnreadable? ||
         (answer.Snapshots? && FailsMatching(answer.list, Volumes(ms, devices), account))))
  }

  ghost predicate Established(ms: seq<Mapping>, devices: map<string, string>, account: string, answer: SnapshotAnswer) {
    MapsExactly(ms, devices) && answer.Snapshots? && ObservedExactly(answer.list, ms, devices, account)
  }

  // ----- polling -----

  datatype Image = Image(id: string, owner: string, failed: bool, mappings: seq<Mapping>)

  datatype ImageAnswer = Images(list: seq<Image>) | ImageNotFound | ImageUnreadable

  /** One round: whether the deadline had passed at its start, before success and during the sleep, and what
      was read in it. */
  datatype Poll = Poll(late: bool, images: ImageAnswer, snapshots: SnapshotAnswer, lateAfter: bool, woken: bool)

  /** The round saw this image, owned by this account and not failed. */
  predicate SawImage(p: Poll, id: string, account: string) {
    && !p.late && p.images.Images? && |p.images.list| == 1
    && var image := p.images.list[0]; image.id == id && image.owner == account && !image.failed
  }

  ghost predicate Succeeds(p: Poll, id: string, account: string, devices: map<string, string>) {
    && SawImage(p, id, account) && !p.lateAfter
    && Established(p.images.list[0].mappings, devices, account, p.snapshots)
  }

  /** The round shows that the capture can no longer be observed in time, or never will be. */
  ghost predicate Aborts(p: Poll, id: string, account: string, devices: map<string, string>) {
    || p.late || p.images.ImageUnreadable?
    || (p.images.Images? && p.images.list != [] &&
        (!SawImage(p, id, account) ||
         Contradicted(p.images.list[0].mappings, devices, account, p.snapshots) ||
         (Established(p.images.list[0].mappings, devices, account, p.snapshots) && p.lateAfter)))
    || (p.woken && !Succeeds(p, id, account, devices))
  }

  datatype Decision = Done | GiveUp | TryAgain

  method OnePoll(p: Poll, id: string, account: string, devices: map<string, string>) returns (d: Decision)
    ensures d == Done <==> Succeeds(p, id, account, devices)
    ensures d == GiveUp <==> Aborts(p, id, account, devices)
  {
    if p.late || p.images.ImageUnreadable? {
      return GiveUp;
    }
    if p.images.Images? && |p.images.list| > 0 {
      var image := p.images.list[0];
      if |p.images.list| != 1 || image.id != id || image.owner != account || image.failed {
        return GiveUp;
      }
      var v := SnapshotsEstablished(image.mappings, devices, account, p.snapshots);
      if v == Mismatch {
        return GiveUp;
      }
      if v == Yes {
        return if p.lateAfter then GiveUp else Done;
      }
    }
    d := if p.woken then GiveUp else TryAgain;
  }

  /** Nothing is decided in the round. */
  ghost predicate GoesOn(p: Poll, id: string, account: string, devices: map<string, string>) {
    !Succeeds(p, id, account, devices) && !Aborts(p, id, account, devices)
  }

  /** The first round that decides anything decides: success is reported exactly if it establishes the
      capture; `polls` are the rounds there is time for. */
  method WaitForCapture(id: string, account: string, devices: map<string, string>, polls: seq<Poll>)
    returns (ok: bool, k: nat)
    ensures id == "" || account == "" || |devices| == 0 ==> !ok && k == 0
    ensures id != "" && account != "" && |devices| > 0 ==>
              && k <= |polls| && (forall j | 0 <= j < k :: GoesOn(polls[j], id, account, devices))
              && (k < |polls| ==> !GoesOn(polls[k], id, account, devices))
              && (ok <==> k < |polls| && Succeeds(polls[k], id, account, devices))
  {
    k := 0;
    if id == "" || account == "" || |devices| == 0 {
      return false, 0;
    }
    while k < |polls|
      invariant k <= |polls|
      invariant forall j | 0 <= j < k :: GoesOn(polls[j], id, account, devices)
    {
      var d := OnePoll(polls[k], id, account, devices);
      if d != TryAgain {
        return d == Done, k;
      }
      k := k + 1;
    }
    return false, k;
  }

  // ----- the devices of the source -----

  datatype Instance = Instance(id: string, mappings: seq<Mapping>)

  /** What the instance's EBS mappings come to: a later mapping of the same device wins. */
  function SourceDevices(ms: seq<Mapping>): map<string, string> {
    if ms == [] then map[]
    else
      var front, m := SourceDevices(ms[..|ms| - 1]), ms[|ms| - 1];
      if m.ebs then front[m.device := m.snapshot] else front
  }

  predicate HasGap(ms: seq<Mapping>) {
    exists i | 0 <= i < |ms| :: ms[i].ebs && (ms[i].device == "" || ms[i].snapshot == "")
  }

  /** The volume takes the place of the snapshot in an instance's mapping.  The first instance with the
      asked-for id decides; the devices are never empty, and neither are their names and volumes. */
  method FindSourceDevices(instances: seq<Instance>, id: string) returns (r: Option<map<string, string>>)
    ensures r.Some? <==>
              exists k :: DecidesAt(instances, id, k) && !HasGap(instances[k].mappings) &&
                          |SourceDevices(instances[k].mappings)| > 0
    ensures forall k | r.Some? && DecidesAt(instances, id, k) :: r.value == SourceDevices(instances[k].mappings)
    ensures r.Some? ==> |r.value| > 0 && "" !in r.value.Keys && "" !in r.value.Values
  {
    var k := 0;
    while k < |instances|
      invariant 0 <= k <= |instances| && forall j | 0 <= j < k :: instances[j].id != id
    {
      if instances[k].id == id {
        var ms := instances[k].mappings;
        assert DecidesAt(instances, id, k);
        var devices: map<string, string> := map[];
        var i := 0;
        while i < |ms|
          invariant 0 <= i <= |ms| && devices == SourceDevices(ms[..i])
          invariant !HasGap(ms[..i]) && "" !in devices.Keys && "" !in devices.Values
        {
          assert ms[..i + 1][..i] == ms[..i];
          if ms[i].ebs {
            if ms[i].device == "" || ms[i].snapshot == "" {
              assert HasGap(ms);
              return None;
            }
            devices := devices[ms[i].device := ms[i].snapshot];
          }
          i := i + 1;
        }
        assert ms[..i] == ms;
        return if |devices| == 0 then None else Some(devices);
      }
      k := k + 1;
    }
    return None;
  }

  predicate DecidesAt(instances: seq<Instance>, id: string, k: int) {
    0 <= k < |instances| && instances[k].id == id && forall j | 0 <= j < k :: instances[j].id != id
  }
}

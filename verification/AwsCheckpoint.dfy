/**
  Deleting an image checkpoint: the image first, then its backing snapshots, resumable after any
  failure.

  Every request meets a fate drawn from an arbitrary schedule.  A failed request may still have taken
  effect, so a lost acknowledgement and a crash right after an effect are failures like any other:
  the deletion returns at once and leaves the same durable state.
 */
module AwsCheckpoint {
  import opened Common

  datatype Answer = Done | NotFound | Throttled | Refused

  /** How the next request goes; `applied` matters only when it fails. */
  datatype Fate = Fate(answer: Answer, applied: bool, cancelled: bool)

  type Schedule = nat -> Fate

  /** What EC2 names a snapshot: nothing around it. */
  type SnapshotID = s: string | TrimSpace(s) == s

  type AccountID = s: string | TrimSpace(s) == s

  /** The AWS account, the durable checkpoint record and the position in the schedule. */
  datatype Account = Account(
    id: AccountID,
    registered: bool,
    devices: seq<Option<SnapshotID>>,
    live: set<SnapshotID>,
    persisted: seq<string>,
    clock: nat)

  datatype Outcome = Success | Failure

  /** The waits between snapshot delete attempts, in seconds. */
  const Backoff: seq<nat> := [1, 2, 4, 8, 15, 30]

  function Tick(a: Account): Account {
    a.(clock := a.clock + 1)
  }

  // ----- the provider -----

  /** The provider is truthful: it confirms only what it did and denies only what is absent. */
  function Deregister(a: Account, f: Fate): (Account, Answer) {
    if !a.registered then
      (a, if f.answer in {Done, NotFound} then NotFound else f.answer)
    else if f.answer == Done then (a.(registered := false), Done)
    else (if f.applied then a.(registered := false) else a,
          if f.answer == NotFound then Refused else f.answer)
  }

  function DeleteSnapshot(a: Account, snapshot: string, f: Fate): (Account, Answer) {
    if snapshot !in a.live then
      (a, if f.answer in {Done, NotFound} then NotFound else f.answer)
    else if f.answer == Done then (a.(live := a.live - {snapshot}), Done)
    else (if f.applied then a.(live := a.live - {snapshot}) else a,
          if f.answer == NotFound then Refused else f.answer)
  }

  function Persist(a: Account, snapshots: seq<string>, f: Fate): (Account, bool) {
    (if f.answer == Done || f.applied then a.(persisted := snapshots) else a, f.answer == Done)
  }

  /** The image's snapshots, or none when there is no such image. */
  function Describe(a: Account, f: Fate): Reply<Option<seq<string>>, ()> {
    if f.answer in {Throttled, Refused} then Failed(())
    else if a.registered then Ok(Some(SnapshotIDs(a.devices)))
    else Ok(None)
  }

  // ----- identities -----

  /** Trimmed; order kept, blanks and repeats dropped. */
  function Unique(values: seq<string>): seq<string> {
    if values == [] then []
    else
      var front := Unique(values[..|values| - 1]);
      var last := TrimSpace(values[|values| - 1]);
      if last == "" || last in front then front else front + [last]
  }

  function DeviceSnapshots(devices: seq<Option<SnapshotID>>): seq<SnapshotID> {
    if devices == [] then []
    else
      DeviceSnapshots(devices[..|devices| - 1]) +
      (if devices[|devices| - 1].Some? then [devices[|devices| - 1].value] else [])
  }

  function SnapshotIDs(devices: seq<Option<SnapshotID>>): seq<string> {
    Unique(DeviceSnapshots(devices))
  }

  /** Some value is this one, up to white space around it. */
  ghost predicate Mentions(values: seq<string>, v: string) {
    v != "" && exists u :: u in values && TrimSpace(u) == v
  }

  lemma {:induction false} UniqueKeeps(values: seq<string>)
    ensures forall v :: v in Unique(values) <==> Mentions(values, v)
    ensures forall i, j | 0 <= i < j < |Unique(values)| :: Unique(values)[i] != Unique(values)[j]
  {
    if values != [] {
      var front, last := values[..|values| - 1], values[|values| - 1];
      UniqueKeeps(front);
      assert forall u :: u in values <==> u in front || u == last;
      forall v
        ensures Mentions(values, v) <==> Mentions(front, v) || (v != "" && TrimSpace(last) == v)
      {
      }
    }
  }

  // ----- the deletion -----

  function DeleteSnapshotFrom(s: Schedule, a: Account, snapshot: string, attempt: nat): (Account, bool)
    requires attempt <= |Backoff|
    decreases |Backoff| - attempt
  {
    var f := s(a.clock);
    var (a', answer) := DeleteSnapshot(Tick(a), snapshot, f);
    if answer == Done || answer == NotFound then (a', true)
    else if answer != Throttled || attempt == |Backoff| || f.cancelled then (a', false)
    else DeleteSnapshotFrom(s, a', snapshot, attempt + 1)
  }

  function DeleteSnapshots(s: Schedule, a: Account, snapshots: seq<string>): (Account, bool)
    decreases |snapshots|
  {
    if snapshots == [] then (a, true) else
    var (a', ok) := DeleteSnapshotFrom(s, a, snapshots[0], 0);
    if !ok then (a', false) else DeleteSnapshots(s, a', snapshots[1..])
  }

  function Remove(s: Schedule, a: Account, snapshots: seq<string>): (Account, Outcome) {
    var (saved, ok) := Persist(Tick(a), snapshots, s(a.clock));
    if !ok then (saved, Failure) else
    var (gone, answer) := Deregister(Tick(saved), s(saved.clock));
    if answer != Done && answer != NotFound then (gone, Failure) else
    var (a', deleted) := DeleteSnapshots(s, gone, snapshots);
    (a', if deleted then Success else Failure)
  }

  /** One call, resumed with the durable list. */
  function DeleteCheckpoint(s: Schedule, a: Account, expectedAccount: string): (Account, Outcome) {
    var account := TrimSpace(expectedAccount);
    if account != "" && (s(a.clock).answer != Done || account != a.id) then (Tick(a), Failure) else
    var a1 := if account != "" then Tick(a) else a;
    var image := Describe(a1, s(a1.clock));
    var a2 := Tick(a1);
    if image.Failed? then (a2, Failure)
    else if image.value.None? && expectedAccount == "" then (a2, Failure)
    else
      var snapshots := Unique(a.persisted + (if image.value.Some? then image.value.value else []));
      if snapshots == [] then (a2, Failure) else Remove(s, a2, snapshots)
  }

  // ----- what every call keeps -----

  ghost predicate Backing(a: Account, snapshot: string) {
    snapshot != "" && snapshot in DeviceSnapshots(a.devices)
  }

  /** Every undeleted backing snapshot can still be found. */
  ghost predicate Custody(a: Account) {
    forall snapshot | snapshot in a.live && Backing(a, snapshot) :: a.registered || Mentions(a.persisted, snapshot)
  }

  lemma {:induction false} SnapshotDeletion(s: Schedule, a: Account, snapshot: string, attempt: nat)
    requires attempt <= |Backoff|
    ensures var (a', ok) := DeleteSnapshotFrom(s, a, snapshot, attempt);
            && a' == a.(live := a'.live, clock := a'.clock)
            && (a'.live == a.live || a'.live == a.live - {snapshot})
            && (ok ==> snapshot !in a'.live)
            && a.clock < a'.clock <= a.clock + 1 + |Backoff| - attempt
    decreases |Backoff| - attempt
  {
    var f := s(a.clock);
    var (a', answer) := DeleteSnapshot(Tick(a), snapshot, f);
    if answer == Throttled && attempt < |Backoff| && !f.cancelled {
      SnapshotDeletion(s, a', snapshot, attempt + 1);
    }
  }

  // ----- when a snapshot is deleted, and with how many requests -----

  /** The request at that position is answered so that the program waits and tries again. */
  predicate TriesAgain(s: Schedule, t: nat) {
    s(t).answer == Throttled && !s(t).cancelled
  }

  /** The snapshot is there when the request at that time is made. */
  ghost predicate ThereAt(s: Schedule, a: Account, snapshot: string, time: nat) {
    snapshot in a.live && forall t | a.clock <= t < time :: !s(t).applied
  }

  /** That request is answered that the snapshot is deleted, or that there is none. */
  ghost predicate Confirms(s: Schedule, a: Account, snapshot: string, time: nat) {
    s(time).answer == Done || (s(time).answer == NotFound && !ThereAt(s, a, snapshot, time))
  }

  /** Every request before that time is tried again, and that one is not or may not be. */
  ghost predicate EndsAt(s: Schedule, clock: nat, time: nat, most: nat) {
    && clock <= time <= clock + most && (forall t | clock <= t < time :: TriesAgain(s, t))
    && (time < clock + most ==> !TriesAgain(s, time))
  }

  lemma DeletionStep(s: Schedule, a: Account, snapshot: string, a': Account, time: nat)
    requires s(a.clock).answer == Throttled && a.clock < time
    requires a' == DeleteSnapshot(Tick(a), snapshot, s(a.clock)).0
    ensures Confirms(s, a, snapshot, time) <==> Confirms(s, a', snapshot, time)
  {
    assert ThereAt(s, a, snapshot, time) ==> !s(a.clock).applied;
    assert ThereAt(s, a, snapshot, time) <==> ThereAt(s, a', snapshot, time);
  }

  /** The loop ends there, and succeeds exactly if its last request is confirmed. */
  lemma {:induction false} DeletionEnds(s: Schedule, a: Account, snapshot: string, attempt: nat) returns (time: nat)
    requires attempt <= |Backoff|
    ensures EndsAt(s, a.clock, time, |Backoff| - attempt)
    ensures var (a', ok) := DeleteSnapshotFrom(s, a, snapshot, attempt);
            a'.clock == time + 1 && (ok <==> Confirms(s, a, snapshot, time))
    decreases |Backoff| - attempt
  {
    if attempt < |Backoff| && TriesAgain(s, a.clock) {
      var a1 := DeleteSnapshot(Tick(a), snapshot, s(a.clock)).0;
      time := DeletionEnds(s, a1, snapshot, attempt + 1);
      DeletionStep(s, a, snapshot, a1, time);
    } else {
      time := a.clock;
      assert ThereAt(s, a, snapshot, time) <==> snapshot in a.live;
    }
  }

  /** A snapshot is deleted if and only if some request, within the attempts there are, is confirmed after others
      that were all answered with a retryable error and not cancelled; and that request is the last. */
  lemma SnapshotDeletedIff(s: Schedule, a: Account, snapshot: string)
    ensures var (a', ok) := DeleteSnapshotFrom(s, a, snapshot, 0);
            && (ok <==> exists time: nat :: EndsAt(s, a.clock, time, |Backoff|) && Confirms(s, a, snapshot, time))
            && (forall time: nat | EndsAt(s, a.clock, time, |Backoff|) :: a'.clock == time + 1)
  {
    var end := DeletionEnds(s, a, snapshot, 0);
    forall time: nat | EndsAt(s, a.clock, time, |Backoff|)
      ensures time == end
    {
      EndsOnce(s, a.clock, time, end, |Backoff|);
      EndsOnce(s, a.clock, end, time, |Backoff|);
    }
  }

  lemma EndsOnce(s: Schedule, clock: nat, time: nat, other: nat, most: nat)
    requires EndsAt(s, clock, time, most) && EndsAt(s, clock, other, most)
    ensures time >= other
  {
    assert forall t | clock <= t < other :: TriesAgain(s, t);
  }

  /** A definite refusal, or a cancelled wait, is never tried again. */
  lemma DefiniteRefusalEndsIt(s: Schedule, a: Account, snapshot: string)
    requires s(a.clock).answer == Refused || s(a.clock).cancelled
    ensures DeleteSnapshotFrom(s, a, snapshot, 0).0.clock == a.clock + 1
  {
    SnapshotDeletedIff(s, a, snapshot);
    assert EndsAt(s, a.clock, a.clock, |Backoff|);
  }

  /** The snapshots are deleted in order; what comes after the first that cannot be deleted is not touched. */
  lemma {:induction false} DeletionsStopAtFailure(s: Schedule, a: Account, snapshots: seq<string>) returns (n: nat)
    ensures n <= |snapshots|
    ensures var (a', ok) := DeleteSnapshots(s, a, snapshots);
            && (ok <==> n == |snapshots|)
            && (forall x | x in snapshots[..n] :: x !in a'.live)
            && (forall x | x in a.live && x !in snapshots[..if ok then n else n + 1] :: x in a'.live)
    decreases |snapshots|
  {
    if snapshots == [] {
      n := 0;
    } else {
      SnapshotDeletion(s, a, snapshots[0], 0);
      var (a1, ok) := DeleteSnapshotFrom(s, a, snapshots[0], 0);
      if ok {
        var rest := DeletionsStopAtFailure(s, a1, snapshots[1..]);
        n := rest + 1;
        SnapshotDeletions(s, a1, snapshots[1..]);
        PrefixCons(snapshots, rest);
      } else {
        n := 0;
        assert snapshots[0] in snapshots[..1];
      }
    }
  }

  lemma PrefixCons(snapshots: seq<string>, n: nat)
    requires n < |snapshots|
    ensures snapshots[..n + 1] == [snapshots[0]] + snapshots[1..][..n]
    ensures n + 1 < |snapshots| ==> snapshots[..n + 2] == [snapshots[0]] + snapshots[1..][..n + 1]
  {
  }

  lemma {:induction false} SnapshotDeletions(s: Schedule, a: Account, snapshots: seq<string>)
    ensures var (a', ok) := DeleteSnapshots(s, a, snapshots);
            && a' == a.(live := a'.live, clock := a'.clock)
            && a'.live <= a.live
            && (forall x | x in a.live && x !in snapshots :: x in a'.live)
            && (ok ==> forall x | x in snapshots :: x !in a'.live)
    decreases |snapshots|
  {
    if snapshots != [] {
      SnapshotDeletion(s, a, snapshots[0], 0);
      var (a1, ok) := DeleteSnapshotFrom(s, a, snapshots[0], 0);
      if ok {
        SnapshotDeletions(s, a1, snapshots[1..]);
      }
      assert snapshots == [snapshots[0]] + snapshots[1..];
    }
  }

  lemma RemoveKeepsCustody(s: Schedule, a: Account, snapshots: seq<string>)
    requires Custody(a)
    requires forall x | x in a.live && Backing(a, x) :: x in snapshots
    ensures var (a', outcome) := Remove(s, a, snapshots);
            && Custody(a') && a'.devices == a.devices && a'.id == a.id
            && (a'.persisted == a.persisted || a'.persisted == snapshots)
            && (forall x | x in a.live && x !in snapshots :: x in a'.live)
            && a'.live <= a.live
            && (outcome == Success ==> !a'.registered && forall x | x in snapshots :: x !in a'.live)
  {
    var (saved, ok) := Persist(Tick(a), snapshots, s(a.clock));
    var (gone, answer) := Deregister(Tick(saved), s(saved.clock));
    SnapshotDeletions(s, gone, snapshots);
    var (a', outcome) := Remove(s, a, snapshots);
    assert forall x :: Backing(a', x) <==> Backing(a, x);
    assert forall x: SnapshotID | x != "" && x in snapshots :: Mentions(snapshots, x);
  }

  /** What the image's mapping is read as. */
  lemma BackingIsListed(a: Account, x: string)
    ensures x in SnapshotIDs(a.devices) <==> Backing(a, x)
  {
    UniqueKeeps(DeviceSnapshots(a.devices));
    if Mentions(DeviceSnapshots(a.devices), x) {
      var u :| u in DeviceSnapshots(a.devices) && TrimSpace(u) == x;
      var id: SnapshotID := u;
    }
  }

  lemma MentionsEither(a: seq<string>, b: seq<string>, x: string)
    ensures Mentions(a + b, x) <==> Mentions(a, x) || Mentions(b, x)
  {
    assert forall u :: u in a + b <==> u in a || u in b;
  }

  lemma BackingIsMentioned(a: Account, x: string)
    ensures Mentions(SnapshotIDs(a.devices), x) <==> Backing(a, x)
  {
    BackingIsListed(a, x);
    if Mentions(SnapshotIDs(a.devices), x) {
      var u :| u in SnapshotIDs(a.devices) && TrimSpace(u) == x;
      BackingIsListed(a, u);
      var id: SnapshotID := u;
    }
    if Backing(a, x) {
      var id: SnapshotID := x;
    }
  }

  /** The list a call works with names every undeleted backing snapshot and the whole durable list,
      and nothing else. */
  lemma ListIsExact(a: Account)
    requires Custody(a)
    ensures var snapshots := Unique(a.persisted + (if a.registered then SnapshotIDs(a.devices) else []));
            && (forall x | x in a.live && Backing(a, x) :: x in snapshots)
            && (forall x | Mentions(a.persisted, x) :: x in snapshots)
            && (forall x | x in snapshots :: (a.registered && Backing(a, x)) || Mentions(a.persisted, x))
  {
    var listed := if a.registered then SnapshotIDs(a.devices) else [];
    UniqueKeeps(a.persisted + listed);
    forall x
      ensures x in Unique(a.persisted + listed) <==> Mentions(a.persisted, x) || (a.registered && Backing(a, x))
    {
      MentionsEither(a.persisted, listed, x);
      BackingIsMentioned(a, x);
    }
  }

  /** No call, however it fails, loses track of an undeleted backing snapshot or touches any other
      snapshot; and success means that nothing of the checkpoint is left. */
  lemma CallKeepsCustody(s: Schedule, a: Account, expectedAccount: string)
    requires Custody(a)
    ensures var (a', outcome) := DeleteCheckpoint(s, a, expectedAccount);
            && Custody(a') && a'.devices == a.devices && a'.id == a.id
            && (forall x | x in a.live && !Backing(a, x) && !Mentions(a.persisted, x) :: x in a'.live)
            && (outcome == Success ==>
                  && !a'.registered
                  && (forall x | Backing(a, x) :: x !in a'.live)
                  && (forall x | Mentions(a.persisted, x) :: x !in a'.live))
  {
    ListIsExact(a);
    var snapshots := Unique(a.persisted + (if a.registered then SnapshotIDs(a.devices) else []));
    var a1 := if TrimSpace(expectedAccount) != "" then Tick(a) else a;
    var a2 := Tick(a1);
    assert forall x :: (Backing(a1, x) <==> Backing(a, x)) && (Backing(a2, x) <==> Backing(a, x));
    RemoveKeepsCustody(s, a2, snapshots);
  }

  // ----- exactly when a call succeeds, and when it touches nothing -----

  /** The caller is in the account that the checkpoint names, if it names one. */
  predicate RightAccount(s: Schedule, a: Account, expectedAccount: string) {
    var account := TrimSpace(expectedAccount);
    account != "" ==> s(a.clock).answer == Done && account == a.id
  }

  /** Then the image was described; without it, the checkpoint must name an account. */
  predicate Located(s: Schedule, a: Account, expectedAccount: string) {
    var answer := s(Guarded(a, expectedAccount).clock).answer;
    answer != Throttled && answer != Refused && (a.registered || expectedAccount != "")
  }

  function Guarded(a: Account, expectedAccount: string): Account {
    if TrimSpace(expectedAccount) != "" then Tick(a) else a
  }

  /** The snapshots such a call works on. */
  function Listed(a: Account): seq<string> {
    Unique(a.persisted + (if a.registered then SnapshotIDs(a.devices) else []))
  }

  /** What the call may go on to. */
  lemma CallIs(s: Schedule, a: Account, expectedAccount: string)
    ensures DeleteCheckpoint(s, a, expectedAccount) ==
            if !RightAccount(s, a, expectedAccount) then (Tick(a), Failure)
            else if !Located(s, a, expectedAccount) || Listed(a) == [] then (Tick(Guarded(a, expectedAccount)), Failure)
            else Remove(s, Tick(Guarded(a, expectedAccount)), Listed(a))
  {
    var a1 := Guarded(a, expectedAccount);
    var image := Describe(a1, s(a1.clock));
    var found := if a.registered then SnapshotIDs(a.devices) else [];
    if image.Ok? {
      assert (if image.value.Some? then image.value.value else []) == found;
    }
  }

  /** A call in another account, or without proof that the image is gone, or without any snapshot to delete, fails
      and touches nothing. */
  lemma UnprovenCallTouchesNothing(s: Schedule, a: Account, expectedAccount: string)
    requires !RightAccount(s, a, expectedAccount) || !Located(s, a, expectedAccount) || Listed(a) == []
    ensures var (a', outcome) := DeleteCheckpoint(s, a, expectedAccount);
            outcome == Failure && a' == a.(clock := a'.clock)
  {
    CallIs(s, a, expectedAccount);
  }

  /** The account was confirmed, or the image found in it. */
  predicate Proven(s: Schedule, a: Account, expectedAccount: string) {
    a.registered || (TrimSpace(expectedAccount) != "" && RightAccount(s, a, expectedAccount))
  }

  /** No world makes a call delete anything in an account that neither was confirmed nor holds the image, if and only
      if the expected account is empty or more than white space. */
  lemma UnconfirmedAccountIsSafeIff(expectedAccount: string)
    ensures (forall s, a | !Proven(s, a, expectedAccount) :: DeleteCheckpoint(s, a, expectedAccount).1 == Failure) <==>
            expectedAccount == "" || TrimSpace(expectedAccount) != ""
  {
    if expectedAccount == "" || TrimSpace(expectedAccount) != "" {
      forall s, a | !Proven(s, a, expectedAccount)
        ensures DeleteCheckpoint(s, a, expectedAccount).1 == Failure
      {
        UnprovenCallTouchesNothing(s, a, expectedAccount);
      }
    } else {
      var s := (t: nat) => Fate(Done, false, false);
      var a := Account("", false, [], {}, ["snap"], 0);
      BlankAccountPasses(s, a, expectedAccount);
    }
  }

  lemma BlankAccountPasses(s: Schedule, a: Account, expectedAccount: string)
    requires expectedAccount != "" && TrimSpace(expectedAccount) == "" && forall t :: s(t).answer == Done
    requires !a.registered && a.persisted == ["snap"]
    ensures DeleteCheckpoint(s, a, expectedAccount).1 == Success && !Proven(s, a, expectedAccount)
  {
    assert TrimSpace("snap") == "snap";
    assert a.persisted[..0] == [] && Unique(["snap"]) == ["snap"] && a.persisted + [] == ["snap"];
    var gone := a.(registered := false, persisted := Listed(a), clock := a.clock + 3);
    HealthyDeletions(s, gone, Listed(a));
    CallSucceedsIff(s, a, expectedAccount);
  }

  /** The durable list is saved, then the image deregistered, unless it was already. */
  predicate Deregistered(s: Schedule, a: Account) {
    s(a.clock).answer == Done &&
    (s(a.clock + 1).answer == Done || (!a.registered && s(a.clock + 1).answer == NotFound))
  }

  /** Any other call succeeds if and only if the list is saved, the image deregistered and every snapshot deleted, in
      that order; no snapshot is touched before the image is gone, nor the image before the list is saved. */
  lemma CallSucceedsIff(s: Schedule, a: Account, expectedAccount: string)
    requires RightAccount(s, a, expectedAccount) && Located(s, a, expectedAccount) && Listed(a) != []
    ensures var (a', outcome) := DeleteCheckpoint(s, a, expectedAccount);
            RemovesInOrder(s, Tick(Guarded(a, expectedAccount)), Listed(a), a', outcome)
  {
    CallIs(s, a, expectedAccount);
    RemovalIs(s, Tick(Guarded(a, expectedAccount)), Listed(a));
  }

  predicate RemovesInOrder(s: Schedule, a: Account, snapshots: seq<string>, a': Account, outcome: Outcome) {
    var gone := a.(registered := false, persisted := snapshots, clock := a.clock + 2);
    && (outcome == Success <==> Deregistered(s, a) && DeleteSnapshots(s, gone, snapshots).1)
    && (Deregistered(s, a) ==> a' == DeleteSnapshots(s, gone, snapshots).0)
    && (!Deregistered(s, a) ==> a'.live == a.live)
    && (s(a.clock).answer != Done ==> a'.registered == a.registered)
  }

  lemma RemovalIs(s: Schedule, a: Account, snapshots: seq<string>)
    ensures var (a', outcome) := Remove(s, a, snapshots); RemovesInOrder(s, a, snapshots, a', outcome)
  {
    var saving, removing := s(a.clock), s(a.clock + 1);
    var (saved, ok) := Persist(Tick(a), snapshots, saving);
    if ok {
      var (gone, answer) := Deregister(Tick(saved), removing);
      assert Remove(s, a, snapshots).0 == gone || answer == Done || answer == NotFound;
      assert Deregistered(s, a) <==> answer == Done || answer == NotFound;
      assert Deregistered(s, a) ==> gone == a.(registered := false, persisted := snapshots, clock := a.clock + 2);
    } else {
      assert Remove(s, a, snapshots) == (saved, Failure);
    }
  }

  // ----- any sequence of calls -----

  /** Calls made one after the other, each resumed with the durable list, whatever became of the last. */
  function DeleteRepeatedly(s: Schedule, a: Account, accounts: seq<string>): (Account, seq<Outcome>)
    decreases |accounts|
  {
    if accounts == [] then (a, []) else
    var (a1, outcomes) := DeleteRepeatedly(s, a, accounts[..|accounts| - 1]);
    var (a2, outcome) := DeleteCheckpoint(s, a1, accounts[|accounts| - 1]);
    (a2, outcomes + [outcome])
  }

  lemma {:induction false} EveryRunKeepsCustody(s: Schedule, a: Account, accounts: seq<string>)
    requires Custody(a)
    ensures var (a', outcomes) := DeleteRepeatedly(s, a, accounts);
            && Custody(a') && a'.devices == a.devices && |outcomes| == |accounts|
            && (outcomes != [] && outcomes[|outcomes| - 1] == Success ==>
                  !a'.registered && forall x | Backing(a, x) :: x !in a'.live)
    decreases |accounts|
  {
    if accounts != [] {
      EveryRunKeepsCustody(s, a, accounts[..|accounts| - 1]);
      var (a1, outcomes) := DeleteRepeatedly(s, a, accounts[..|accounts| - 1]);
      CallKeepsCustody(s, a1, accounts[|accounts| - 1]);
      assert forall x | Backing(a, x) :: Backing(a1, x);
    }
  }

  // ----- resuming works -----

  lemma {:induction false} HealthyDeletions(s: Schedule, a: Account, snapshots: seq<string>)
    requires forall t :: s(t).answer == Done
    ensures DeleteSnapshots(s, a, snapshots).1
    decreases |snapshots|
  {
    if snapshots != [] {
      var (a1, ok) := DeleteSnapshotFrom(s, a, snapshots[0], 0);
      HealthyDeletions(s, a1, snapshots[1..]);
    }
  }

  /** Once the provider is healthy again, one more call in the right account finishes the deletion,
      whatever was done before; it cannot only when no snapshot was ever recorded or found. */
  lemma HealthyCallSucceedsIff(s: Schedule, a: Account)
    requires forall t :: s(t).answer == Done
    requires a.id != ""
    ensures DeleteCheckpoint(s, a, a.id).1 == Success <==>
            (exists x :: Mentions(a.persisted, x) || (a.registered && Backing(a, x)))
  {
    var listed := if a.registered then SnapshotIDs(a.devices) else [];
    var snapshots := Unique(a.persisted + listed);
    ListIsNonempty(a);
    if snapshots != [] {
      var a2 := Tick(Tick(a));
      var (saved, ok) := Persist(Tick(a2), snapshots, s(a2.clock));
      var (gone, answer) := Deregister(Tick(saved), s(saved.clock));
      HealthyDeletions(s, gone, snapshots);
    }
  }

  lemma ListIsNonempty(a: Account)
    ensures Unique(a.persisted + (if a.registered then SnapshotIDs(a.devices) else [])) != [] <==>
            (exists x :: Mentions(a.persisted, x) || (a.registered && Backing(a, x)))
  {
    var listed := if a.registered then SnapshotIDs(a.devices) else [];
    var snapshots := Unique(a.persisted + listed);
    UniqueKeeps(a.persisted + listed);
    forall x
      ensures x in snapshots <==> Mentions(a.persisted, x) || (a.registered && Backing(a, x))
    {
      MentionsEither(a.persisted, listed, x);
      BackingIsMentioned(a, x);
    }
    if snapshots != [] {
      assert snapshots[0] in snapshots;
    }
  }

  // ----- as the program runs it -----

  class Checkpoint {
    const schedule: Schedule
    var account: Account

    constructor (schedule: Schedule, account: Account)
      ensures this.schedule == schedule && this.account == account
    {
      this.schedule, this.account := schedule, account;
    }

    method Next() returns (f: Fate)
      modifies this
      ensures f == schedule(old(account.clock)) && account == Tick(old(account))
    {
      f := schedule(account.clock);
      account := account.(clock := account.clock + 1);
    }

    method DeleteSnapshotWithRetry(snapshot: string) returns (ok: bool)
      modifies this
      ensures (account, ok) == DeleteSnapshotFrom(schedule, old(account), snapshot, 0)
    {
      var attempt := 0;
      while attempt <= |Backoff|
        invariant 0 <= attempt <= |Backoff|
        invariant DeleteSnapshotFrom(schedule, old(account), snapshot, 0) ==
                  DeleteSnapshotFrom(schedule, account, snapshot, attempt)
        decreases |Backoff| + 1 - attempt
      {
        var f := Next();
        var (a, answer) := DeleteSnapshot(account, snapshot, f);
        account := a;
        if answer == Done || answer == NotFound {
          return true;
        }
        if answer != Throttled || attempt >= |Backoff| || f.cancelled {
          return false;
        }
        attempt := attempt + 1;
      }
      ok := false;
    }

    method DeleteImageCheckpoint(expectedAccount: string) returns (outcome: Outcome)
      modifies this
      ensures (account, outcome) == DeleteCheckpoint(schedule, old(account), expectedAccount)
    {
      var name := TrimSpace(expectedAccount);
      if name != "" {
        var caller := Next();
        if caller.answer != Done || name != account.id {
          return Failure;
        }
      }
      var described := Next();
      var image := Describe(account, described);
      if image.Failed? || (image.value.None? && expectedAccount == "") {
        return Failure;
      }
      var snapshots := account.persisted;
      if image.value.Some? {
        snapshots := snapshots + image.value.value;
      }
      assert image.value.None? ==> snapshots + [] == snapshots;
      snapshots := Unique(snapshots);
      if snapshots == [] {
        return Failure;
      }
      outcome := RemoveImage(snapshots);
    }

    method RemoveImage(snapshots: seq<string>) returns (outcome: Outcome)
      modifies this
      ensures (account, outcome) == Remove(schedule, old(account), snapshots)
    {
      var saving := Next();
      var (saved, ok) := Persist(account, snapshots, saving);
      account := saved;
      if !ok {
        return Failure;
      }
      var removing := Next();
      var (gone, answer) := Deregister(account, removing);
      account := gone;
      if answer != Done && answer != NotFound {
        return Failure;
      }
      var deleted := DeleteAll(snapshots);
      outcome := if deleted then Success else Failure;
    }

    method DeleteAll(snapshots: seq<string>) returns (ok: bool)
      modifies this
      ensures (account, ok) == DeleteSnapshots(schedule, old(account), snapshots)
    {
      var i := 0;
      while i < |snapshots|
        invariant 0 <= i <= |snapshots|
        invariant DeleteSnapshots(schedule, old(account), snapshots) ==
                  DeleteSnapshots(schedule, account, snapshots[i..])
      {
        assert snapshots[i..][0] == snapshots[i] && snapshots[i..][1..] == snapshots[i + 1..];
        var deleted := DeleteSnapshotWithRetry(snapshots[i]);
        if !deleted {
          return false;
        }
        i := i + 1;
      }
      ok := true;
    }
  }
}

/** What every cleanup run keeps, and the loops that run it. */
module AzureCleanupRun {
  import opened Common
  import opened AzureCleanup

  const Attempts: nat := 13

  // ----- what a history says -----

  function Front(log: Log): Log
    requires log != []
  {
    log[..|log| - 1]
  }

  function Last(log: Log): Event
    requires log != []
  {
    log[|log| - 1]
  }

  lemma Snoc(log: Log, e: Event)
    ensures Front(log + [e]) == log && Last(log + [e]) == e
  {
  }

  /** The history ends in one complete successful revalidation that left `after`. */
  ghost predicate EndsRevalidated(ctx: Context, log: Log, before: Resources, after: Resources) {
    exists j: nat :: j <= |log| && (j == 0 || !log[j - 1].Read?) && Passes(ctx, Order, log[j..], before, after)
  }

  predicate SeenGone(log: Log, kind: Kind) {
    Read(kind, Absent) in log || Checked(kind, Gone) in log
  }

  /** Later batches never go back to the VM, nor to anything an earlier one no longer named. */
  predicate Follows(earlier: Resources, later: Resources) {
    (later.vm ==> earlier.vm) && (!earlier.vm ==> Shrunk(earlier, later))
  }

  predicate FollowsAll(log: Log, r: Resources) {
    log == [] || (FollowsAll(Front(log), r) && (Last(log).Batch? ==> Follows(Last(log).target, r)))
  }

  /** A batch may be issued here: it comes straight after a revalidation; it is for the VM alone, or for
      companions whose VM has been seen absent and which are attached to none. */
  ghost predicate BatchAllowed(ctx: Context, entry: Resources, past: Log, target: Resources) {
    exists before, after ::
      && Shrunk(entry, before) && EndsRevalidated(ctx, past, before, after)
      && target == (if after.vm then OnlyVM() else after)
      && (entry.vm && !after.vm ==> SeenGone(past, VM))
      && FollowsAll(past, target)
  }

  /** Every batch in the history was allowed where it was issued. */
  ghost predicate Orderly(ctx: Context, entry: Resources, log: Log) {
    log == [] ||
    (Orderly(ctx, entry, Front(log)) && (Last(log).Batch? ==> BatchAllowed(ctx, entry, Front(log), Last(log).target)))
  }

  function Batches(log: Log): nat {
    if log == [] then 0 else Batches(Front(log)) + if Last(log).Batch? then 1 else 0
  }

  /** Whatever is no longer in hand was seen to be gone. */
  ghost predicate Accounted(log: Log, entry: Resources, r: Resources) {
    forall kind | Has(entry, kind) && !Has(r, kind) :: SeenGone(log, kind)
  }

  ghost predicate Quiet(more: Log) {
    forall e | e in more :: !e.Batch?
  }

  lemma {:induction false} QuietKeeps(ctx: Context, entry: Resources, log: Log, more: Log, r: Resources)
    requires Quiet(more)
    ensures Batches(log + more) == Batches(log)
    ensures Orderly(ctx, entry, log + more) == Orderly(ctx, entry, log)
    ensures FollowsAll(log + more, r) == FollowsAll(log, r)
    decreases |more|
  {
    if more == [] {
      assert log + more == log;
    } else {
      QuietKeeps(ctx, entry, log, Front(more), r);
      Snoc(log + Front(more), Last(more));
      assert log + more == log + Front(more) + [Last(more)];
      assert Last(more) in more;
    }
  }

  lemma RevalidatedShrinks(ctx: Context, log: Log, before: Resources, after: Resources)
    requires EndsRevalidated(ctx, log, before, after)
    ensures Shrunk(before, after)
  {
  }

  lemma {:induction false} FollowsShrunk(log: Log, r: Resources, r': Resources)
    requires FollowsAll(log, r) && Shrunk(r, r')
    ensures FollowsAll(log, r')
  {
    if log != [] {
      FollowsShrunk(Front(log), r, r');
    }
  }

  // ----- the run, as a function of what the world answers -----

  /** Only failed reads are tried again, always on the set that was asked for. */
  function RetryReads(w: World, ctx: Context, log: Log, r: Resources, attempt: nat): (Log, Verdict)
    decreases Attempts - attempt, |log|
  {
    var (seen, v) := Revalidate(w, ctx, log, r);
    if !v.ReadError? || attempt >= Attempts - 1 then (seen, v)
    else
      var slept := w.wait(seen);
      var log' := seen + [Waited(slept)];
      if slept then RetryReads(w, ctx, log', r, attempt + 1) else (log', v)
  }

  /** After a batch, absence is checked in this order. */
  const CheckOrder: seq<Kind> := [VM, NIC, PublicIP, Disk, NSG]

  /** The state of a batch: the history, whether nothing failed, and whether to try again. */
  datatype Tally = Tally(log: Log, ok: bool, retry: bool)

  function Check(w: World, t: Tally, kind: Kind): Tally {
    var p := w.check(t.log, kind);
    Tally(t.log + [Checked(kind, p)], t.ok && p.Gone?, t.retry || p.Present? || (p.Unknown? && p.retry))
  }

  function CheckAll(w: World, t: Tally, kinds: seq<Kind>, target: Resources): Tally
    decreases |kinds|, |t.log|
  {
    if kinds == [] then t
    else CheckAll(w, if Has(target, kinds[0]) then Check(w, t, kinds[0]) else t, kinds[1..], target)
  }

  function DeleteOnce(w: World, log: Log, target: Resources): Tally {
    var log' := log + [Batch(target)];
    var faults := w.delete(log');
    CheckAll(w, Tally(log', !faults.any, faults.retry), CheckOrder, target)
  }

  /** Waits, then revalidates what is left. */
  function Refresh(w: World, ctx: Context, log: Log, r: Resources): (Log, Option<Resources>) {
    var slept := w.wait(log);
    var log' := log + [Waited(slept)];
    if !slept then (log', None)
    else
      var (seen, v) := RetryReads(w, ctx, log', r, 0);
      (seen, if v.Valid? then Some(v.after) else None)
  }

  /** One round and those after it; entered straight after a revalidation that left `r`. */
  function DeleteFrom(w: World, ctx: Context, log: Log, r: Resources, attempt: nat): (Log, bool)
    decreases Attempts - attempt, 2
  {
    if r.vm then
      var t := DeleteOnce(w, log, OnlyVM());
      if !t.ok then AfterFailure(w, ctx, t, r, attempt, false)
      else
        var (seen, v) := RetryReads(w, ctx, t.log, r.(vm := false), 0);
        if !v.Valid? then (seen, false)
        else if IsEmpty(v.after) then (seen, true)
        else DeleteCompanions(w, ctx, seen, v.after, attempt)
    else DeleteCompanions(w, ctx, log, r, attempt)
  }

  function DeleteCompanions(w: World, ctx: Context, log: Log, r: Resources, attempt: nat): (Log, bool)
    decreases Attempts - attempt, 1
  {
    var t := DeleteOnce(w, log, r);
    if t.ok then (t.log, true) else AfterFailure(w, ctx, t, r, attempt, true)
  }

  /** What follows a batch that did not clear everything; a set found empty ends the companions' rounds. */
  function AfterFailure(w: World, ctx: Context, t: Tally, r: Resources, attempt: nat, companions: bool): (Log, bool)
    decreases Attempts - attempt, 0
  {
    if !t.retry || attempt >= Attempts - 1 then (t.log, false)
    else
      var (seen, left) := Refresh(w, ctx, t.log, r);
      if left.None? then (seen, false)
      else if companions && IsEmpty(left.value) then (seen, true)
      else DeleteFrom(w, ctx, seen, left.value, attempt + 1)
  }

  function DeleteValidated(w: World, ctx: Context, entry: Resources): (Log, bool) {
    var (seen, v) := RetryReads(w, ctx, [], entry, 0);
    if v.Valid? then DeleteFrom(w, ctx, seen, v.after, 0) else (seen, false)
  }

  // ----- what every run keeps -----

  function TargetOf(r: Resources): Resources {
    if r.vm then OnlyVM() else r
  }

  /** What every point of a run keeps; `r` is what is left to delete. */
  ghost predicate Settled(ctx: Context, entry: Resources, log: Log, r: Resources) {
    Orderly(ctx, entry, log) && Shrunk(entry, r) && Accounted(log, entry, r) && FollowsAll(log, r)
  }

  /** What holds whenever a batch may come next. */
  ghost predicate Ready(ctx: Context, entry: Resources, log: Log, r: Resources) {
    Settled(ctx, entry, log, r) && exists before :: Shrunk(entry, before) && EndsRevalidated(ctx, log, before, r)
  }

  lemma SettledQuiet(ctx: Context, entry: Resources, log: Log, more: Log, r: Resources)
    requires Settled(ctx, entry, log, r) && Quiet(more)
    ensures Settled(ctx, entry, log + more, r) && Batches(log + more) == Batches(log)
  {
    QuietKeeps(ctx, entry, log, more, r);
    assert forall kind | SeenGone(log, kind) :: SeenGone(log + more, kind);
  }

  lemma RevalidatedIsReady(ctx: Context, entry: Resources, log: Log, r: Resources, after: Resources)
    requires Settled(ctx, entry, log, r) && EndsRevalidated(ctx, log, r, after)
    requires forall kind | Has(r, kind) && !Has(after, kind) :: SeenGone(log, kind)
    ensures Ready(ctx, entry, log, after) && Shrunk(r, after)
  {
    RevalidatedShrinks(ctx, log, r, after);
    FollowsShrunk(log, r, after);
  }

  lemma DropVM(ctx: Context, entry: Resources, log: Log, r: Resources)
    requires Settled(ctx, entry, log, r) && SeenGone(log, VM)
    ensures Settled(ctx, entry, log, r.(vm := false))
  {
    FollowsShrunk(log, r, r.(vm := false));
  }

  lemma BatchSettles(ctx: Context, entry: Resources, log: Log, r: Resources)
    requires Ready(ctx, entry, log, r)
    ensures Settled(ctx, entry, log + [Batch(TargetOf(r))], r)
    ensures Batches(log + [Batch(TargetOf(r))]) == Batches(log) + 1
  {
    TargetFollows(log, r);
    assert Has(entry, VM) && !Has(r, VM) ==> SeenGone(log, VM);
    assert BatchAllowed(ctx, entry, log, TargetOf(r));
    Snoc(log, Batch(TargetOf(r)));
    assert forall kind | SeenGone(log, kind) :: SeenGone(log + [Batch(TargetOf(r))], kind);
  }

  lemma {:induction false} TargetFollows(log: Log, r: Resources)
    requires FollowsAll(log, r)
    ensures FollowsAll(log, TargetOf(r))
  {
    if log != [] {
      TargetFollows(Front(log), r);
    }
  }

  predicate NotReading(log: Log) {
    log == [] || !log[|log| - 1].Read?
  }

  lemma {:induction false} RetryReadsKeeps(w: World, ctx: Context, entry: Resources, log: Log, r: Resources,
                                           attempt: nat)
    requires Settled(ctx, entry, log, r) && NotReading(log)
    ensures var (log', v) := RetryReads(w, ctx, log, r, attempt);
            && Orderly(ctx, entry, log') && Batches(log') == Batches(log)
            && (v.Valid? ==> Ready(ctx, entry, log', v.after) && Shrunk(r, v.after))
    decreases Attempts - attempt
  {
    var (seen, v) := Revalidate(w, ctx, log, r);
    RevalidateKeeps(w, ctx, entry, log, r);
    if v.ReadError? && attempt < Attempts - 1 {
      var slept := w.wait(seen);
      SettledQuiet(ctx, entry, seen, [Waited(slept)], r);
      if slept {
        RetryReadsKeeps(w, ctx, entry, seen + [Waited(slept)], r, attempt + 1);
      }
    }
  }

  lemma RevalidateKeeps(w: World, ctx: Context, entry: Resources, log: Log, r: Resources)
    requires Settled(ctx, entry, log, r) && NotReading(log)
    ensures var (seen, v) := Revalidate(w, ctx, log, r);
            && Settled(ctx, entry, seen, r) && Batches(seen) == Batches(log)
            && (v.Valid? ==> Ready(ctx, entry, seen, v.after) && Shrunk(r, v.after))
  {
    var (seen, v) := Revalidate(w, ctx, log, r);
    RevalidateIff(w, ctx, log, r);
    var more := NewEvents(log, seen);
    assert seen == log + more;
    SettledQuiet(ctx, entry, log, more, r);
    if v.Valid? {
      PassedIsReady(ctx, entry, log, more, r, v.after);
    }
  }

  lemma PassedIsReady(ctx: Context, entry: Resources, log: Log, seen: Log, r: Resources, after: Resources)
    requires NotReading(log) && Settled(ctx, entry, log + seen, r) && Passes(ctx, Order, seen, r, after)
    ensures Ready(ctx, entry, log + seen, after) && Shrunk(r, after)
  {
    assert (log + seen)[|log|..] == seen && (log != [] ==> (log + seen)[|log| - 1] == log[|log| - 1]);
    assert EndsRevalidated(ctx, log + seen, r, after);
    RevalidatedIsReady(ctx, entry, log + seen, r, after);
  }

  /** The checks add to the history, and a clean result means that all were clean. */
  lemma {:induction false} CheckAllSees(w: World, t: Tally, kinds: seq<Kind>, target: Resources)
    requires NotReading(t.log)
    ensures var t' := CheckAll(w, t, kinds, target);
            && t.log <= t'.log && Quiet(NewEvents(t.log, t'.log)) && NotReading(t'.log)
            && (t'.ok ==> t.ok && forall kind | kind in kinds && Has(target, kind) :: SeenGone(t'.log, kind))
    decreases |kinds|
  {
    if kinds != [] {
      var t1 := if Has(target, kinds[0]) then Check(w, t, kinds[0]) else t;
      CheckAllSees(w, t1, kinds[1..], target);
      var t' := CheckAll(w, t, kinds, target);
      if Has(target, kinds[0]) {
        NewEventsCons(t.log, t1.log[|t.log|], t'.log);
        assert t1.ok ==> Checked(kinds[0], Gone) in t1.log;
      }
      assert t'.ok ==> forall kind | kind in kinds && Has(target, kind) :: kind == kinds[0] || kind in kinds[1..];
    }
  }

  lemma EveryKindIsChecked(kind: Kind)
    ensures kind in CheckOrder
  {
    assert CheckOrder[0] == VM && CheckOrder[1] == NIC && CheckOrder[2] == PublicIP;
    assert CheckOrder[3] == Disk && CheckOrder[4] == NSG;
  }

  lemma DeleteOnceSees(w: World, log: Log, target: Resources)
    ensures var start, t := log + [Batch(target)], DeleteOnce(w, log, target);
            && start <= t.log && Quiet(NewEvents(start, t.log)) && NotReading(t.log)
            && (t.ok ==> forall kind | Has(target, kind) :: SeenGone(t.log, kind))
  {
    var start := log + [Batch(target)];
    var faults := w.delete(start);
    CheckAllSees(w, Tally(start, !faults.any, faults.retry), CheckOrder, target);
    forall kind
      ensures kind in CheckOrder
    {
      EveryKindIsChecked(kind);
    }
  }

  lemma DeleteOnceKeeps(w: World, ctx: Context, entry: Resources, log: Log, r: Resources)
    requires Ready(ctx, entry, log, r)
    ensures var t := DeleteOnce(w, log, TargetOf(r));
            && Settled(ctx, entry, t.log, r) && Batches(t.log) == Batches(log) + 1 && NotReading(t.log)
            && (t.ok ==> forall kind | Has(TargetOf(r), kind) :: SeenGone(t.log, kind))
  {
    var start, t := log + [Batch(TargetOf(r))], DeleteOnce(w, log, TargetOf(r));
    DeleteOnceSees(w, log, TargetOf(r));
    BatchSettles(ctx, entry, log, r);
    assert t.log == start + NewEvents(start, t.log);
    SettledQuiet(ctx, entry, start, NewEvents(start, t.log), r);
  }

  lemma RefreshKeeps(w: World, ctx: Context, entry: Resources, log: Log, r: Resources)
    requires Settled(ctx, entry, log, r)
    ensures var (log', left) := Refresh(w, ctx, log, r);
            && Orderly(ctx, entry, log') && Batches(log') == Batches(log)
            && (left.Some? ==> Ready(ctx, entry, log', left.value) && Shrunk(r, left.value))
  {
    var slept := w.wait(log);
    SettledQuiet(ctx, entry, log, [Waited(slept)], r);
    RetryReadsKeeps(w, ctx, entry, log + [Waited(slept)], r, 0);
  }

  /** How a run ends, if it may still issue `budget` batches. */
  ghost predicate EndsWell(ctx: Context, entry: Resources, log: Log, log': Log, ok: bool, budget: nat) {
    && Orderly(ctx, entry, log') && Batches(log') <= Batches(log) + budget
    && (ok ==> forall kind | Has(entry, kind) :: SeenGone(log', kind))
  }

  lemma EmptyIsGone(ctx: Context, entry: Resources, log: Log, r: Resources)
    requires Settled(ctx, entry, log, r) && IsEmpty(r)
    ensures forall kind | Has(entry, kind) :: SeenGone(log, kind)
  {
  }

  lemma {:induction false} DeleteFromKeeps(w: World, ctx: Context, entry: Resources, log: Log, r: Resources,
                                           attempt: nat)
    requires Ready(ctx, entry, log, r) && attempt < Attempts
    ensures var (log', ok) := DeleteFrom(w, ctx, log, r, attempt);
            EndsWell(ctx, entry, log, log', ok, Attempts - attempt + if r.vm then 1 else 0)
    decreases Attempts - attempt, 2
  {
    if r.vm {
      var t := DeleteOnce(w, log, OnlyVM());
      DeleteOnceKeeps(w, ctx, entry, log, r);
      if !t.ok {
        AfterFailureKeeps(w, ctx, entry, t, r, attempt, false);
      } else {
        assert Has(TargetOf(r), VM);
        DropVM(ctx, entry, t.log, r);
        var (seen, v) := RetryReads(w, ctx, t.log, r.(vm := false), 0);
        RetryReadsKeeps(w, ctx, entry, t.log, r.(vm := false), 0);
        if v.Valid? {
          if IsEmpty(v.after) {
            EmptyIsGone(ctx, entry, seen, v.after);
          } else {
            DeleteCompanionsKeeps(w, ctx, entry, seen, v.after, attempt);
          }
        }
      }
    } else {
      DeleteCompanionsKeeps(w, ctx, entry, log, r, attempt);
    }
  }

  lemma {:induction false} DeleteCompanionsKeeps(w: World, ctx: Context, entry: Resources, log: Log, r: Resources,
                                                 attempt: nat)
    requires Ready(ctx, entry, log, r) && attempt < Attempts && !r.vm
    ensures var (log', ok) := DeleteCompanions(w, ctx, log, r, attempt);
            EndsWell(ctx, entry, log, log', ok, Attempts - attempt)
    decreases Attempts - attempt, 1
  {
    var t := DeleteOnce(w, log, r);
    DeleteOnceKeeps(w, ctx, entry, log, r);
    if !t.ok {
      AfterFailureKeeps(w, ctx, entry, t, r, attempt, true);
    }
  }

  lemma {:induction false} AfterFailureKeeps(w: World, ctx: Context, entry: Resources, t: Tally, r: Resources,
                                             attempt: nat, companions: bool)
    requires Settled(ctx, entry, t.log, r) && attempt < Attempts
    ensures var (log', ok) := AfterFailure(w, ctx, t, r, attempt, companions);
            EndsWell(ctx, entry, t.log, log', ok, Attempts - 1 - attempt + if r.vm then 1 else 0)
    decreases Attempts - attempt, 0
  {
    if t.retry && attempt < Attempts - 1 {
      RefreshKeeps(w, ctx, entry, t.log, r);
      var (seen, left) := Refresh(w, ctx, t.log, r);
      if left.Some? {
        if companions && IsEmpty(left.value) {
          EmptyIsGone(ctx, entry, seen, left.value);
        } else {
          DeleteFromKeeps(w, ctx, entry, seen, left.value, attempt + 1);
        }
      }
    }
  }

  /** For every world: each batch directly follows one complete successful revalidation, companions wait for
      the VM to be seen absent, the set only shrinks, there is at most one more batch than attempts, and
      success means that everything there was to delete was seen to be gone. */
  lemma CleanupIsOrderly(w: World, ctx: Context, entry: Resources)
    ensures var (log, ok) := DeleteValidated(w, ctx, entry);
            && Orderly(ctx, entry, log)
            && Batches(log) <= Attempts + 1
            && (ok ==> forall kind | Has(entry, kind) :: SeenGone(log, kind))
  {
    assert Settled(ctx, entry, [], entry);
    RetryReadsKeeps(w, ctx, entry, [], entry, 0);
    var (seen, v) := RetryReads(w, ctx, [], entry, 0);
    if v.Valid? {
      DeleteFromKeeps(w, ctx, entry, seen, v.after, 0);
    }
  }

  // ----- as the program runs it -----

  class Cleanup {
    const world: World
    const ctx: Context
    var log: Log

    constructor (world: World, ctx: Context)
      ensures this.world == world && this.ctx == ctx && log == []
    {
      this.world, this.ctx, log := world, ctx, [];
    }

    /** The reads of one revalidation, one block per kind with the VM last, then the attachments. */
    method RevalidateResources(r: Resources) returns (v: Verdict)
      modifies this
      ensures (log, v) == Revalidate(world, ctx, old(log), r)
    {
      var left, attached, i := r, [], 0;
      assert Order[i..] == Order;
      while i < |Order|
        invariant 0 <= i <= |Order|
        invariant Revalidate(world, ctx, old(log), r) == RevalidateFrom(world, ctx, log, Order[i..], left, attached)
      {
        var kind := Order[i];
        assert Order[i..][0] == kind && Order[i..][1..] == Order[i + 1..];
        if Has(left, kind) {
          var answer := world.read(log, kind);
          log := log + [Read(kind, answer)];
          match answer {
            case Unreadable =>
              return ReadError;
            case Absent =>
              left := Clear(left, kind);
            case Found(view) =>
              if !Acceptable(ctx, left.nic != "", IdentityOf(left, kind), kind, view) {
                return Skip;
              }
              attached := attached + Attachments(kind, view);
          }
        }
        i := i + 1;
      }
      v := Conclude(ctx, left, attached);
    }

    method Wait() returns (slept: bool)
      modifies this
      ensures slept == world.wait(old(log)) && log == old(log) + [Waited(slept)]
    {
      slept := world.wait(log);
      log := log + [Waited(slept)];
    }

    method RevalidateWithRetry(r: Resources) returns (v: Verdict)
      modifies this
      ensures (log, v) == RetryReads(world, ctx, old(log), r, 0)
    {
      var attempt := 0;
      while true
        invariant 0 <= attempt <= Attempts
        invariant RetryReads(world, ctx, old(log), r, 0) == RetryReads(world, ctx, log, r, attempt)
        decreases Attempts - attempt
      {
        v := RevalidateResources(r);
        if !v.ReadError? || attempt >= Attempts - 1 {
          return;
        }
        var slept := Wait();
        if !slept {
          return;
        }
        attempt := attempt + 1;
      }
    }

    /** One batch of deletes, and the checks that follow it. */
    method DeleteResources(target: Resources) returns (ok: bool, retry: bool)
      modifies this
      ensures Tally(log, ok, retry) == DeleteOnce(world, old(log), target)
    {
      log := log + [Batch(target)];
      var faults := world.delete(log);
      ok, retry := !faults.any, faults.retry;
      var i := 0;
      assert CheckOrder[i..] == CheckOrder;
      while i < |CheckOrder|
        invariant 0 <= i <= |CheckOrder|
        invariant DeleteOnce(world, old(log), target) == CheckAll(world, Tally(log, ok, retry), CheckOrder[i..], target)
      {
        var kind := CheckOrder[i];
        assert CheckOrder[i..][0] == kind && CheckOrder[i..][1..] == CheckOrder[i + 1..];
        if Has(target, kind) {
          var p := world.check(log, kind);
          log := log + [Checked(kind, p)];
          ok := ok && p.Gone?;
          retry := retry || p.Present? || (p.Unknown? && p.retry);
        }
        i := i + 1;
      }
    }

    method RefreshAfterWait(r: Resources) returns (left: Option<Resources>)
      modifies this
      ensures (log, left) == Refresh(world, ctx, old(log), r)
    {
      var slept := Wait();
      if !slept {
        return None;
      }
      var v := RevalidateWithRetry(r);
      left := if v.Valid? then Some(v.after) else None;
    }

    method DeleteWithRetry(entry: Resources) returns (ok: bool)
      requires log == []
      modifies this
      ensures (log, ok) == DeleteValidated(world, ctx, entry)
      ensures Orderly(ctx, entry, log) && Batches(log) <= Attempts + 1
      ensures ok ==> forall kind | Has(entry, kind) :: SeenGone(log, kind)
    {
      CleanupIsOrderly(world, ctx, entry);
      var v := RevalidateWithRetry(entry);
      if !v.Valid? {
        return false;
      }
      ok := DeleteRounds(v.after);
    }

    method DeleteRounds(first: Resources) returns (ok: bool)
      modifies this
      ensures (log, ok) == DeleteFrom(world, ctx, old(log), first, 0)
    {
      ghost var whole := DeleteFrom(world, ctx, log, first, 0);
      var r, attempt, retry := first, 0, false;
      while true
        invariant 0 <= attempt <= Attempts
        invariant whole == DeleteFrom(world, ctx, log, r, attempt)
        decreases Attempts - attempt
      {
        if r.vm {
          ok, retry := DeleteResources(OnlyVM());
          if !ok {
            assert whole == AfterFailure(world, ctx, Tally(log, ok, retry), r, attempt, false);
            if !retry || attempt >= Attempts - 1 {
              return false;
            }
            var left := RefreshAfterWait(r);
            if left.None? {
              return false;
            }
            r, attempt := left.value, attempt + 1;
            continue;
          }
          r := r.(vm := false);
          var v := RevalidateWithRetry(r);
          if !v.Valid? {
            return false;
          }
          r := v.after;
          if IsEmpty(r) {
            return true;
          }
        }
        assert whole == DeleteCompanions(world, ctx, log, r, attempt);
        ok, retry := DeleteResources(r);
        if ok {
          return true;
        }
        assert whole == AfterFailure(world, ctx, Tally(log, ok, retry), r, attempt, true);
        if !retry || attempt >= Attempts - 1 {
          return false;
        }
        var left := RefreshAfterWait(r);
        if left.None? {
          return false;
        }
        r, attempt := left.value, attempt + 1;
        if IsEmpty(r) {
          return true;
        }
      }
    }
  }
}

/** A cleanup that nothing disturbs goes through. */
module AzureCleanupHealthy {
  import opened AzureCleanup
  import opened AzureCleanupRun
  import opened AzureCleanupEnd

  /** From here on the VM is found, as long as nothing is done but reading. */
  ghost predicate VMStays(w: World, log: Log) {
    forall later: Log | log <= later && (forall e | e in NewEvents(log, later) :: e.Read?) :: w.read(later, VM).Found?
  }

  /** Whatever is read is absent or ours, and attached to nothing but our VM while that is there. */
  ghost predicate HealthyRead(w: World, ctx: Context, entry: Resources, log: Log, kind: Kind) {
    match w.read(log, kind)
    case Absent => true
    case Unreadable => false
    case Found(v) =>
      && Acceptable(ctx, FoundAny(LastReads(log), NIC), IdentityOf(entry, kind), kind, v)
      && forall id | id in Attachments(kind, v) ::
           SameID(ctx, id, ctx.vmID) && entry.vm && !SeenGone(log, VM) && VMStays(w, log)
  }

  /** Deletes do not fail, and what was deleted is gone. */
  ghost predicate Healthy(w: World, ctx: Context, entry: Resources) {
    && (forall log, kind :: HealthyRead(w, ctx, entry, log, kind))
    && (forall log :: !w.delete(log).any)
    && (forall log, kind :: w.check(log, kind) == Gone)
  }

  /** The VM is in hand until it was seen to be gone. */
  predicate VMInHand(entry: Resources, log: Log, r: Resources) {
    r.vm <==> entry.vm && !SeenGone(log, VM)
  }

  // ----- one revalidation -----

  /** Attachments noted so far are to our VM, which is in hand or will be found. */
  ghost predicate Harmless(w: World, ctx: Context, log: Log, kinds: seq<Kind>, r: Resources, attached: seq<string>) {
    attached != [] ==>
      && (forall id | id in attached :: SameID(ctx, id, ctx.vmID))
      && r.vm && (VM in kinds ==> VMStays(w, log))
  }

  ghost predicate ReadingWell(w: World, ctx: Context, entry: Resources, log: Log, kinds: seq<Kind>, r: Resources,
                              attached: seq<string>) {
    && Ordered(kinds) && Shrunk(entry, r) && VMInHand(entry, log, r)
    && Known(LastReads(log), r, kinds) && Harmless(w, ctx, log, kinds, r, attached)
  }

  lemma VMStaysOn(w: World, log: Log, e: Event)
    requires VMStays(w, log) && e.Read?
    ensures VMStays(w, log + [e])
  {
    forall later: Log | log + [e] <= later && (forall x | x in NewEvents(log + [e], later) :: x.Read?)
      ensures w.read(later, VM).Found?
    {
      NewEventsCons(log, e, later);
    }
  }

  lemma ReadIsAcceptable(w: World, ctx: Context, entry: Resources, log: Log, kinds: seq<Kind>, r: Resources)
    requires kinds != [] && HealthyRead(w, ctx, entry, log, kinds[0]) && w.read(log, kinds[0]).Found?
    requires Ordered(kinds) && Shrunk(entry, r) && Known(LastReads(log), r, kinds)
    ensures Acceptable(ctx, r.nic != "", IdentityOf(r, kinds[0]), kinds[0], w.read(log, kinds[0]).view)
  {
    var e := Read(kinds[0], w.read(log, kinds[0]));
    ForeignIs(ctx, entry, log, e, kinds, r);
    Snoc(log, e);
  }

  lemma VMInHandStays(entry: Resources, log: Log, e: Event, r: Resources)
    requires VMInHand(entry, log, r) && e.Read? && Has(r, e.kind)
    ensures VMInHand(entry, log + [e], Dropped(r, e))
  {
    assert SeenGone(log + [e], VM) <==> SeenGone(log, VM) || e == Read(VM, Absent);
  }

  lemma HarmlessStays(w: World, ctx: Context, entry: Resources, log: Log, kinds: seq<Kind>, r: Resources,
                      attached: seq<string>, e: Event, more: seq<string>)
    requires ReadingWell(w, ctx, entry, log, kinds, r, attached) && kinds != [] && Has(r, kinds[0])
    requires HealthyRead(w, ctx, entry, log, kinds[0]) && e == Read(kinds[0], w.read(log, kinds[0]))
    requires more == if e.answer.Found? then Attachments(e.kind, e.answer.view) else []
    ensures Harmless(w, ctx, log + [e], kinds[1..], Dropped(r, e), attached + more)
  {
    if attached != [] {
      if e.kind == VM {
        assert log <= log && NewEvents(log, log) == [];
      } else if VM in kinds {
        VMStaysOn(w, log, e);
      }
    } else if more != [] {
      assert more[0] in more;
      VMStaysOn(w, log, e);
    }
  }

  lemma {:induction false} HealthyRevalidation(w: World, ctx: Context, entry: Resources, log: Log, kinds: seq<Kind>,
                                               r: Resources, attached: seq<string>)
    requires Healthy(w, ctx, entry) && ReadingWell(w, ctx, entry, log, kinds, r, attached)
    ensures var (log', v) := RevalidateFrom(w, ctx, log, kinds, r, attached);
            v.Valid? && Shrunk(entry, v.after) && VMInHand(entry, log', v.after)
    decreases |kinds|
  {
    if kinds != [] {
      if !Has(r, kinds[0]) {
        KnownUnread(LastReads(log), r, kinds);
        HealthyRevalidation(w, ctx, entry, log, kinds[1..], r, attached);
      } else {
        assert HealthyRead(w, ctx, entry, log, kinds[0]);
        var e := Read(kinds[0], w.read(log, kinds[0]));
        var more := if e.answer.Found? then Attachments(e.kind, e.answer.view) else [];
        if e.answer.Found? {
          ReadIsAcceptable(w, ctx, entry, log, kinds, r);
        }
        ReadSnoc(log, e);
        KnownRead(LastReads(log), e, r, kinds);
        VMInHandStays(entry, log, e, r);
        HarmlessStays(w, ctx, entry, log, kinds, r, attached, e, more);
        assert attached + [] == attached;
        HealthyRevalidation(w, ctx, entry, log + [e], kinds[1..], Dropped(r, e), attached + more);
      }
    }
  }

  /** What is no longer in hand was read as absent. */
  predicate ReadAsAbsent(log: Log, r: Resources, after: Resources, kind: Kind) {
    Has(r, kind) && !Has(after, kind) ==> Read(kind, Absent) in log
  }

  lemma HealthyReads(w: World, ctx: Context, entry: Resources, log: Log, r: Resources)
    requires Healthy(w, ctx, entry) && NotReading(log) && Shrunk(entry, r) && VMInHand(entry, log, r)
    ensures var (log', v) := RetryReads(w, ctx, log, r, 0);
            && v.Valid? && Shrunk(entry, v.after) && VMInHand(entry, log', v.after) && log <= log'
            && forall kind :: ReadAsAbsent(log', r, v.after, kind)
  {
    assert LastReads(log) == [];
    forall kind: Kind
      ensures kind in Order
    {
      EveryKindIsRead(kind);
    }
    HealthyRevalidation(w, ctx, entry, log, Order, r, []);
    RevalidateIff(w, ctx, log, r);
  }

  // ----- one batch -----

  lemma {:induction false} HealthyChecks(w: World, t: Tally, kinds: seq<Kind>, target: Resources)
    requires t.ok && forall log, kind :: w.check(log, kind) == Gone
    ensures CheckAll(w, t, kinds, target).ok
    decreases |kinds|
  {
    if kinds != [] {
      HealthyChecks(w, if Has(target, kinds[0]) then Check(w, t, kinds[0]) else t, kinds[1..], target);
    }
  }

  lemma HealthyBatch(w: World, ctx: Context, entry: Resources, log: Log, target: Resources)
    requires Healthy(w, ctx, entry)
    ensures var t := DeleteOnce(w, log, target);
            && t.ok && log <= t.log && Batch(target) in t.log && NotReading(t.log)
            && forall kind | Has(target, kind) :: SeenGone(t.log, kind)
  {
    var issued := log + [Batch(target)];
    HealthyChecks(w, Tally(issued, !w.delete(issued).any, w.delete(issued).retry), CheckOrder, target);
    DeleteOnceSees(w, log, target);
    assert Batch(target) in issued;
  }

  // ----- the run -----

  /** The companion was read as absent, or deleted. */
  ghost predicate Handled(log: Log, kind: Kind) {
    Read(kind, Absent) in log || exists target :: Batch(target) in log && Has(target, kind)
  }

  lemma HandledStays(log: Log, later: Log)
    requires log <= later
    ensures forall kind | Handled(log, kind) :: Handled(later, kind)
  {
    assert forall e | e in log :: e in later;
  }

  lemma HealthyCompanions(w: World, ctx: Context, entry: Resources, log: Log, r: Resources, attempt: nat)
    requires Healthy(w, ctx, entry) && forall kind | Has(entry, kind) && !Has(r, kind) :: Handled(log, kind)
    ensures var (log', ok) := DeleteCompanions(w, ctx, log, r, attempt);
            ok && forall kind | Has(entry, kind) :: Handled(log', kind)
  {
    HealthyBatch(w, ctx, entry, log, r);
    HandledStays(log, DeleteOnce(w, log, r).log);
  }

  lemma HealthyRounds(w: World, ctx: Context, entry: Resources, log: Log, r: Resources)
    requires Healthy(w, ctx, entry) && Shrunk(entry, r) && VMInHand(entry, log, r)
    requires forall kind | Has(entry, kind) && !Has(r, kind) :: Handled(log, kind)
    ensures var (log', ok) := DeleteFrom(w, ctx, log, r, 0);
            ok && forall kind | Has(entry, kind) :: Handled(log', kind)
  {
    if r.vm {
      var t := DeleteOnce(w, log, OnlyVM());
      HealthyBatch(w, ctx, entry, log, OnlyVM());
      HandledStays(log, t.log);
      assert Has(OnlyVM(), VM);
      assert Handled(t.log, VM);
      var left := r.(vm := false);
      HealthyReads(w, ctx, entry, t.log, left);
      var (seen, v) := RetryReads(w, ctx, t.log, left, 0);
      HandledStays(t.log, seen);
      forall kind | Has(entry, kind) && !Has(v.after, kind)
        ensures Handled(seen, kind)
      {
        assert ReadAsAbsent(seen, left, v.after, kind);
      }
      if !IsEmpty(v.after) {
        HealthyCompanions(w, ctx, entry, seen, v.after, 0);
      }
    } else {
      HealthyCompanions(w, ctx, entry, log, r, 0);
    }
  }

  /** If every read is absent or ours, no delete fails and what was deleted is gone, the cleanup succeeds, and
      everything there was has been deleted or was read as absent. */
  lemma HealthyCleanupSucceeds(w: World, ctx: Context, entry: Resources)
    requires Healthy(w, ctx, entry)
    ensures var (log, ok) := DeleteValidated(w, ctx, entry);
            ok && forall kind | Has(entry, kind) :: Handled(log, kind)
  {
    HealthyReads(w, ctx, entry, [], entry);
    var (seen, v) := RetryReads(w, ctx, [], entry, 0);
    forall kind | Has(entry, kind) && !Has(v.after, kind)
      ensures Handled(seen, kind)
    {
      assert ReadAsAbsent(seen, entry, v.after, kind);
    }
    HealthyRounds(w, ctx, entry, seen, v.after);
  }
}

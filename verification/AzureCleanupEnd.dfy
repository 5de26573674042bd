/** Where a cleanup run gives up: exactly at the first event that leaves it nothing to try, and nowhere else. */
module AzureCleanupEnd {
  import opened Common
  import opened AzureCleanup
  import opened AzureCleanupRun

  // ----- what the end of a history says -----

  /** The reads it ends in, which are one revalidation. */
  function LastReads(log: Log): Log {
    if log == [] || !Last(log).Read? then [] else LastReads(Front(log)) + [Last(log)]
  }

  /** The absence checks it ends in. */
  function LastChecks(log: Log): Log {
    if log == [] || !Last(log).Checked? then [] else LastChecks(Front(log)) + [Last(log)]
  }

  /** How often reading was tried again since the last batch or round. */
  function ReadRetries(log: Log): nat {
    if log == [] then 0 else
    match Last(log)
    case Read(_, _) => ReadRetries(Front(log))
    case Waited(_) => if NotReading(Front(log)) then 0 else ReadRetries(Front(log)) + 1
    case _ => 0
  }

  /** How often deleting was tried again. */
  function Rounds(log: Log): nat {
    if log == [] then 0
    else Rounds(Front(log)) + if Last(log) == Waited(true) && NotReading(Front(log)) then 1 else 0
  }

  predicate FoundAny(seen: Log, kind: Kind) {
    exists e | e in seen :: e.Read? && e.kind == kind && e.answer.Found?
  }

  // ----- reasons to give up -----

  /** Waiting was interrupted. */
  predicate Interrupted(log: Log) {
    log != [] && Last(log) == Waited(false)
  }

  /** A read failed, and it was the last try. */
  predicate Unread(log: Log) {
    log != [] && Last(log).Read? && Last(log).answer.Unreadable? && ReadRetries(log) == Attempts - 1
  }

  /** What was just read is not what it should be. */
  predicate Foreign(ctx: Context, entry: Resources, log: Log) {
    && log != [] && Last(log).Read? && Last(log).answer.Found?
    && !Acceptable(ctx, FoundAny(LastReads(Front(log)), NIC), IdentityOf(entry, Last(log).kind), Last(log).kind,
                   Last(log).answer.view)
  }

  /** A NIC or disk just found is attached to a VM that was not found, or to another one. */
  predicate Attached(ctx: Context, log: Log) {
    var seen := LastReads(log);
    exists e | e in seen :: e.Read? && e.answer.Found? &&
      exists id | id in Attachments(e.kind, e.answer.view) :: !FoundAny(seen, VM) || !SameID(ctx, id, ctx.vmID)
  }

  function Kinds(checks: Log): seq<Kind>
    requires forall e | e in checks :: e.Checked?
  {
    seq(|checks|, i requires 0 <= i < |checks| && checks[i] in checks => checks[i].kind)
  }

  lemma {:induction false} LastChecksAre(log: Log)
    ensures |LastChecks(log)| <= |log| && forall e | e in LastChecks(log) :: e.Checked?
  {
    if log != [] && Last(log).Checked? {
      LastChecksAre(Front(log));
    }
  }

  predicate Lingers(c: Event) {
    c.Checked? && !c.presence.Gone?
  }

  predicate MayLinger(c: Event) {
    c.Checked? && (c.presence.Present? || c.presence == Unknown(true))
  }

  /** A batch failed, and there is nothing to try again or it was the last round. */
  predicate Undeleted(w: World, log: Log) {
    LastChecksAre(log);
    var checks := LastChecks(log);
    var issued := log[..|log| - |checks|];
    && issued != [] && Last(issued).Batch? && Kinds(checks) == Expected(CheckOrder, Last(issued).target)
    && (w.delete(issued).any || exists c | c in checks :: Lingers(c))
    && (Rounds(log) >= Attempts - 1 || !(w.delete(issued).retry || exists c | c in checks :: MayLinger(c)))
  }

  /** The history ends in one of these. */
  predicate GivesUp(w: World, ctx: Context, entry: Resources, log: Log) {
    Interrupted(log) || Unread(log) || Foreign(ctx, entry, log) || Undeleted(w, log)
  }

  /** It never did so far. */
  predicate Going(w: World, ctx: Context, entry: Resources, log: Log) {
    !GivesUp(w, ctx, entry, log) && (log != [] ==> Going(w, ctx, entry, Front(log)))
  }

  /** How a run ends: it did not give up before, and fails exactly for such a reason. */
  predicate EndsSo(w: World, ctx: Context, entry: Resources, log: Log, ok: bool) {
    && (log != [] ==> Going(w, ctx, entry, Front(log)))
    && (ok ==> Going(w, ctx, entry, log))
    && (!ok ==> GivesUp(w, ctx, entry, log) || Attached(ctx, log))
  }

  // ----- one revalidation -----

  lemma ReadSnoc(log: Log, e: Event)
    requires e.Read?
    ensures LastReads(log + [e]) == LastReads(log) + [e] && LastChecks(log + [e]) == []
    ensures ReadRetries(log + [e]) == ReadRetries(log) && Rounds(log + [e]) == Rounds(log)
  {
    Snoc(log, e);
  }

  /** The reads so far left nothing unread, were of other kinds than those to come, and decided what is still there. */
  ghost predicate Known(seen: Log, r: Resources, kinds: seq<Kind>) {
    && (forall e | e in seen :: e.Read? && e.kind !in kinds)
    && (forall kind | kind !in kinds :: Has(r, kind) <==> FoundAny(seen, kind))
  }

  /** The attachments noted so far are those of what was found. */
  ghost predicate Noted(seen: Log, attached: seq<string>) {
    forall id :: id in attached <==>
      exists e | e in seen :: e.Read? && e.answer.Found? && id in Attachments(e.kind, e.answer.view)
  }

  ghost predicate Reading(w: World, ctx: Context, entry: Resources, log: Log, kinds: seq<Kind>, r: Resources,
                          attached: seq<string>) {
    && Going(w, ctx, entry, log) && Ordered(kinds) && Shrunk(entry, r)
    && Known(LastReads(log), r, kinds) && Noted(LastReads(log), attached)
  }

  lemma KnownUnread(seen: Log, r: Resources, kinds: seq<Kind>)
    requires Known(seen, r, kinds) && kinds != [] && !Has(r, kinds[0])
    ensures Known(seen, r, kinds[1..])
  {
    assert !FoundAny(seen, kinds[0]);
    forall kind | kind !in kinds[1..]
      ensures Has(r, kind) <==> FoundAny(seen, kind)
    {
      assert kind == kinds[0] || kind !in kinds;
    }
  }

  lemma FoundSnoc(seen: Log, e: Event, kind: Kind)
    requires e.Read?
    ensures FoundAny(seen + [e], kind) <==> FoundAny(seen, kind) || (e.kind == kind && e.answer.Found?)
  {
    if FoundAny(seen, kind) {
      var x :| x in seen && x.Read? && x.kind == kind && x.answer.Found?;
      assert x in seen + [e];
    }
    assert e in seen + [e];
  }

  lemma KnownRead(seen: Log, e: Event, r: Resources, kinds: seq<Kind>)
    requires Known(seen, r, kinds) && Ordered(kinds) && kinds != [] && e.Read? && e.kind == kinds[0]
    requires Has(r, e.kind) && !e.answer.Unreadable?
    ensures Known(seen + [e], Dropped(r, e), kinds[1..])
  {
    assert kinds[0] !in kinds[1..] by {
      assert forall i | 0 <= i < |kinds| - 1 :: kinds[1..][i] == kinds[i + 1];
    }
    forall kind | kind !in kinds[1..]
      ensures Has(Dropped(r, e), kind) <==> FoundAny(seen + [e], kind)
    {
      FoundSnoc(seen, e, kind);
      assert kind == kinds[0] || kind !in kinds;
      assert !FoundAny(seen, kinds[0]);
    }
  }

  lemma NotedSnoc(seen: Log, e: Event, attached: seq<string>, more: seq<string>)
    requires Noted(seen, attached) && e.Read?
    requires more == if e.answer.Found? then Attachments(e.kind, e.answer.view) else []
    ensures Noted(seen + [e], attached + more)
  {
    forall id
      ensures id in attached + more <==>
              exists x | x in seen + [e] :: x.Read? && x.answer.Found? && id in Attachments(x.kind, x.answer.view)
    {
      if id in attached {
        var x :| x in seen && x.Read? && x.answer.Found? && id in Attachments(x.kind, x.answer.view);
        assert x in seen + [e];
      }
      if id in more {
        assert e in seen + [e];
      }
    }
  }

  /** How a revalidation ends. */
  ghost predicate Revalidated(w: World, ctx: Context, entry: Resources, log: Log, log': Log, v: Verdict) {
    && Rounds(log') == Rounds(log) && ReadRetries(log') == ReadRetries(log)
    && (log' != [] ==> Going(w, ctx, entry, Front(log')))
    && match v
       case Valid(after) => Going(w, ctx, entry, log') && Shrunk(entry, after)
       case ReadError => log' != [] && Last(log').Read? && Last(log').answer.Unreadable?
       case Skip => Foreign(ctx, entry, log') || Attached(ctx, log')
  }

  lemma ConcludeEnds(w: World, ctx: Context, entry: Resources, log: Log, r: Resources, attached: seq<string>)
    requires Reading(w, ctx, entry, log, [], r, attached)
    ensures Revalidated(w, ctx, entry, log, log, Conclude(ctx, r, attached))
  {
    if id :| id in attached && !(r.vm && SameID(ctx, id, ctx.vmID)) {
      var seen := LastReads(log);
      assert Has(r, VM) <==> FoundAny(seen, VM);
      var e :| e in seen && e.Read? && e.answer.Found? && id in Attachments(e.kind, e.answer.view);
    }
  }

  /** The check made in the program is the one told by the history. */
  lemma ForeignIs(ctx: Context, entry: Resources, log: Log, e: Event, kinds: seq<Kind>, r: Resources)
    requires e.Read? && e.answer.Found? && kinds != [] && e.kind == kinds[0] && Ordered(kinds)
    requires Shrunk(entry, r) && Known(LastReads(log), r, kinds)
    ensures Foreign(ctx, entry, log + [e]) <==>
            !Acceptable(ctx, r.nic != "", IdentityOf(r, e.kind), e.kind, e.answer.view)
  {
    Snoc(log, e);
    if e.kind != NIC {
      assert NIC !in kinds by {
        assert forall i | 0 <= i < |kinds| :: i == 0 || kinds[i] != NIC;
      }
      assert Has(r, NIC) <==> FoundAny(LastReads(log), NIC);
    }
  }

  lemma ReadGoesOn(w: World, ctx: Context, entry: Resources, log: Log, e: Event)
    requires Going(w, ctx, entry, log) && e.Read? && !e.answer.Unreadable? && !Foreign(ctx, entry, log + [e])
    ensures Going(w, ctx, entry, log + [e])
  {
    ReadSnoc(log, e);
    Snoc(log, e);
    assert (log + [e])[..|log + [e]|] == log + [e];
  }

  lemma {:induction false} RevalidateEnds(w: World, ctx: Context, entry: Resources, log: Log, kinds: seq<Kind>,
                                          r: Resources, attached: seq<string>)
    requires Reading(w, ctx, entry, log, kinds, r, attached)
    ensures var (log', v) := RevalidateFrom(w, ctx, log, kinds, r, attached);
            Revalidated(w, ctx, entry, log, log', v)
    decreases |kinds|
  {
    if kinds == [] {
      ConcludeEnds(w, ctx, entry, log, r, attached);
    } else if !Has(r, kinds[0]) {
      KnownUnread(LastReads(log), r, kinds);
      RevalidateEnds(w, ctx, entry, log, kinds[1..], r, attached);
    } else {
      var e := Read(kinds[0], w.read(log, kinds[0]));
      ReadSnoc(log, e);
      Snoc(log, e);
      if e.answer.Found? {
        ForeignIs(ctx, entry, log, e, kinds, r);
      }
      if !e.answer.Unreadable? && !Foreign(ctx, entry, log + [e]) {
        var more := if e.answer.Found? then Attachments(e.kind, e.answer.view) else [];
        ReadGoesOn(w, ctx, entry, log, e);
        KnownRead(LastReads(log), e, r, kinds);
        NotedSnoc(LastReads(log), e, attached, more);
        assert attached + [] == attached;
        RevalidateEnds(w, ctx, entry, log + [e], kinds[1..], Dropped(r, e), attached + more);
      }
    }
  }

  lemma EveryKindIsRead(kind: Kind)
    ensures kind in Order
  {
    assert Order[0] == NIC && Order[1] == PublicIP && Order[2] == Disk && Order[3] == NSG && Order[4] == VM;
  }

  lemma RevalidationEnds(w: World, ctx: Context, entry: Resources, log: Log, r: Resources)
    requires Going(w, ctx, entry, log) && NotReading(log) && Shrunk(entry, r)
    ensures var (log', v) := Revalidate(w, ctx, log, r); Revalidated(w, ctx, entry, log, log', v)
  {
    assert LastReads(log) == [];
    forall kind: Kind
      ensures kind in Order
    {
      EveryKindIsRead(kind);
    }
    RevalidateEnds(w, ctx, entry, log, Order, r, []);
  }

  // ----- reading again -----

  /** A wait that is not interrupted is no reason to give up. */
  lemma WaitGoesOn(w: World, ctx: Context, entry: Resources, log: Log, slept: bool)
    requires Going(w, ctx, entry, log)
    ensures EndsSo(w, ctx, entry, log + [Waited(slept)], slept)
    ensures NotReading(log + [Waited(slept)])
    ensures ReadRetries(log + [Waited(slept)]) == if NotReading(log) then 0 else ReadRetries(log) + 1
    ensures slept ==> Rounds(log + [Waited(slept)]) == Rounds(log) + if NotReading(log) then 1 else 0
  {
    var log' := log + [Waited(slept)];
    Snoc(log, Waited(slept));
    assert LastChecks(log') == [] && log'[..|log'|] == log';
    assert !Undeleted(w, log');
  }

  lemma UnreadGoesOn(w: World, ctx: Context, entry: Resources, log: Log)
    requires log != [] && Going(w, ctx, entry, Front(log)) && Last(log).Read? && Last(log).answer.Unreadable?
    requires ReadRetries(log) < Attempts - 1
    ensures Going(w, ctx, entry, log)
  {
    assert LastChecks(log) == [] && log[..|log|] == log;
    assert !Undeleted(w, log);
  }

  lemma RevalidatedEnds(w: World, ctx: Context, entry: Resources, log: Log, log': Log, v: Verdict)
    requires Revalidated(w, ctx, entry, log, log', v) && (v.ReadError? ==> ReadRetries(log) == Attempts - 1)
    ensures EndsSo(w, ctx, entry, log', v.Valid?)
  {
  }

  lemma TriedAgain(w: World, ctx: Context, entry: Resources, log: Log, seen: Log, slept: bool)
    requires Revalidated(w, ctx, entry, log, seen, ReadError) && ReadRetries(log) < Attempts - 1
    ensures var log' := seen + [Waited(slept)];
            && EndsSo(w, ctx, entry, log', slept) && NotReading(log')
            && ReadRetries(log') == ReadRetries(log) + 1 && Rounds(log') == Rounds(log)
  {
    UnreadGoesOn(w, ctx, entry, seen);
    WaitGoesOn(w, ctx, entry, seen, slept);
    Snoc(seen, Waited(slept));
  }

  lemma {:induction false} RetryReadsEnds(w: World, ctx: Context, entry: Resources, log: Log, r: Resources,
                                          attempt: nat)
    requires Going(w, ctx, entry, log) && NotReading(log) && Shrunk(entry, r)
    requires ReadRetries(log) == attempt < Attempts
    ensures var (log', v) := RetryReads(w, ctx, log, r, attempt);
            && Rounds(log') == Rounds(log) && EndsSo(w, ctx, entry, log', v.Valid?)
            && (v.Valid? ==> Shrunk(entry, v.after))
    decreases Attempts - attempt
  {
    var (seen, v) := Revalidate(w, ctx, log, r);
    RevalidationEnds(w, ctx, entry, log, r);
    if v.ReadError? && attempt < Attempts - 1 {
      var slept := w.wait(seen);
      var log' := seen + [Waited(slept)];
      TriedAgain(w, ctx, entry, log, seen, slept);
      if slept {
        RetryReadsEnds(w, ctx, entry, log', r, attempt + 1);
        assert RetryReads(w, ctx, log, r, attempt) == RetryReads(w, ctx, log', r, attempt + 1);
      } else {
        assert RetryReads(w, ctx, log, r, attempt) == (log', v);
      }
    } else {
      RevalidatedEnds(w, ctx, entry, log, seen, v);
    }
  }

  // ----- one batch -----

  /** The checks of a batch, made one after the other on a history that ends in the batch. */
  ghost predicate Checking(w: World, issued: Log, checks: Log, t: Tally, left: seq<Kind>, target: Resources) {
    && issued != [] && Last(issued) == Batch(target) && t.log == issued + checks
    && (forall e | e in checks :: e.Checked?)
    && Kinds(checks) + Expected(left, target) == Expected(CheckOrder, target)
    && (t.ok <==> !w.delete(issued).any && forall c | c in checks :: !Lingers(c))
    && (t.retry <==> w.delete(issued).retry || exists c | c in checks :: MayLinger(c))
  }

  lemma {:induction false} LastChecksAfter(issued: Log, checks: Log)
    requires issued != [] && Last(issued).Batch? && forall e | e in checks :: e.Checked?
    ensures LastChecks(issued + checks) == checks && Rounds(issued + checks) == Rounds(issued)
    ensures NotReading(issued + checks) && LastReads(issued + checks) == []
    decreases |checks|
  {
    var log := issued + checks;
    if checks == [] {
      assert log == issued;
    } else {
      assert Last(checks) in checks;
      LastChecksAfter(issued, Front(checks));
      assert Front(log) == issued + Front(checks) && Last(log) == Last(checks);
      assert Front(checks) + [Last(checks)] == checks;
    }
  }

  /** While checks are still to be made, the run goes on. */
  lemma ChecksGoOn(w: World, ctx: Context, entry: Resources, issued: Log, checks: Log, t: Tally, left: seq<Kind>,
                   target: Resources)
    requires Checking(w, issued, checks, t, left, target) && Expected(left, target) != []
    requires t.log != [] ==> Going(w, ctx, entry, Front(t.log))
    ensures Going(w, ctx, entry, t.log)
  {
    LastChecksAfter(issued, checks);
    assert (issued + checks)[..|issued|] == issued;
    assert |Kinds(checks)| < |Expected(CheckOrder, target)|;
    assert !Last(t.log).Read? && !Last(t.log).Waited? by {
      assert checks != [] ==> Last(t.log) == Last(checks) && Last(checks) in checks;
      assert checks == [] ==> t.log == issued;
    }
  }

  lemma CheckedOnce(w: World, issued: Log, checks: Log, t: Tally, left: seq<Kind>, target: Resources)
    requires Checking(w, issued, checks, t, left, target) && left != [] && Has(target, left[0])
    ensures var c := Checked(left[0], w.check(t.log, left[0]));
            Checking(w, issued, checks + [c], Check(w, t, left[0]), left[1..], target)
  {
    var c := Checked(left[0], w.check(t.log, left[0]));
    var more := checks + [c];
    assert forall e :: e in more <==> e in checks || e == c;
    assert Kinds(more) == Kinds(checks) + [left[0]];
    assert Kinds(more) + Expected(left[1..], target) == Kinds(checks) + Expected(left, target);
    assert issued + more == t.log + [c];
    assert c in more;
  }

  lemma {:induction false} CheckAllEnds(w: World, ctx: Context, entry: Resources, issued: Log, checks: Log, t: Tally,
                                        left: seq<Kind>, target: Resources) returns (all: Log)
    requires Checking(w, issued, checks, t, left, target) && (t.log != [] ==> Going(w, ctx, entry, Front(t.log)))
    ensures var t' := CheckAll(w, t, left, target);
            Checking(w, issued, all, t', [], target) && (t'.log != [] ==> Going(w, ctx, entry, Front(t'.log)))
    decreases |left|
  {
    if left == [] {
      all := checks;
    } else if Has(target, left[0]) {
      ChecksGoOn(w, ctx, entry, issued, checks, t, left, target);
      CheckedOnce(w, issued, checks, t, left, target);
      var c := Checked(left[0], w.check(t.log, left[0]));
      Snoc(t.log, c);
      all := CheckAllEnds(w, ctx, entry, issued, checks + [c], Check(w, t, left[0]), left[1..], target);
    } else {
      all := CheckAllEnds(w, ctx, entry, issued, checks, t, left[1..], target);
    }
  }

  lemma UndeletedIs(w: World, issued: Log, checks: Log, t: Tally, target: Resources)
    requires Checking(w, issued, checks, t, [], target)
    ensures Undeleted(w, t.log) <==> !t.ok && (!t.retry || Rounds(t.log) >= Attempts - 1)
  {
    LastChecksAfter(issued, checks);
    assert Kinds(checks) + [] == Kinds(checks);
    assert t.log[..|t.log| - |checks|] == issued;
  }

  lemma FirstCheck(w: World, log: Log, target: Resources)
    ensures var issued := log + [Batch(target)];
            Checking(w, issued, [], Tally(issued, !w.delete(issued).any, w.delete(issued).retry), CheckOrder, target)
  {
    assert Kinds([]) + Expected(CheckOrder, target) == Expected(CheckOrder, target);
  }

  /** A batch with all its checks: clean or not, to be tried again or not, as Azure answered. */
  lemma DeleteOnceEnds(w: World, ctx: Context, entry: Resources, log: Log, target: Resources)
    requires Going(w, ctx, entry, log)
    ensures var t := DeleteOnce(w, log, target);
            && Rounds(t.log) == Rounds(log) && NotReading(t.log) && ReadRetries(t.log) == 0
            && t.log != [] && Going(w, ctx, entry, Front(t.log))
            && (Undeleted(w, t.log) <==> !t.ok && (!t.retry || Rounds(t.log) >= Attempts - 1))
            && (Going(w, ctx, entry, t.log) <==> !Undeleted(w, t.log))
  {
    var issued := log + [Batch(target)];
    Snoc(log, Batch(target));
    FirstCheck(w, log, target);
    var start := Tally(issued, !w.delete(issued).any, w.delete(issued).retry);
    var checks := CheckAllEnds(w, ctx, entry, issued, [], start, CheckOrder, target);
    var t := DeleteOnce(w, log, target);
    UndeletedIs(w, issued, checks, t, target);
    LastChecksAfter(issued, checks);
    EndsChecked(t.log, issued, checks);
    OnlyUndeleted(w, ctx, entry, t.log);
  }

  lemma OnlyUndeleted(w: World, ctx: Context, entry: Resources, log: Log)
    requires log != [] && Going(w, ctx, entry, Front(log)) && !Last(log).Read? && !Last(log).Waited?
    ensures Going(w, ctx, entry, log) <==> !Undeleted(w, log)
  {
  }

  lemma EndsChecked(log: Log, issued: Log, checks: Log)
    requires issued != [] && Last(issued).Batch? && log == issued + checks && forall e | e in checks :: e.Checked?
    ensures log != [] && !Last(log).Read? && !Last(log).Waited? && ReadRetries(log) == 0
  {
    if checks != [] {
      assert Last(log) == Last(checks) && Last(checks) in checks;
    } else {
      assert log == issued;
    }
  }

  // ----- whole runs -----

  lemma RefreshEnds(w: World, ctx: Context, entry: Resources, log: Log, r: Resources)
    requires Going(w, ctx, entry, log) && NotReading(log) && Shrunk(entry, r)
    ensures var (log', left) := Refresh(w, ctx, log, r);
            && EndsSo(w, ctx, entry, log', left.Some?)
            && (left.Some? ==> Rounds(log') == Rounds(log) + 1 && Shrunk(entry, left.value))
  {
    var slept := w.wait(log);
    WaitGoesOn(w, ctx, entry, log, slept);
    if slept {
      RetryReadsEnds(w, ctx, entry, log + [Waited(slept)], r, 0);
    }
  }

  lemma {:induction false} DeleteFromEnds(w: World, ctx: Context, entry: Resources, log: Log, r: Resources,
                                          attempt: nat)
    requires Going(w, ctx, entry, log) && Shrunk(entry, r) && Rounds(log) == attempt < Attempts
    ensures var (log', ok) := DeleteFrom(w, ctx, log, r, attempt); EndsSo(w, ctx, entry, log', ok)
    decreases Attempts - attempt, 2
  {
    if r.vm {
      var t := DeleteOnce(w, log, OnlyVM());
      DeleteOnceEnds(w, ctx, entry, log, OnlyVM());
      if !t.ok {
        AfterFailureEnds(w, ctx, entry, t, r, attempt, false);
      } else {
        var (seen, v) := RetryReads(w, ctx, t.log, r.(vm := false), 0);
        RetryReadsEnds(w, ctx, entry, t.log, r.(vm := false), 0);
        if v.Valid? && !IsEmpty(v.after) {
          DeleteCompanionsEnds(w, ctx, entry, seen, v.after, attempt);
        }
      }
    } else {
      DeleteCompanionsEnds(w, ctx, entry, log, r, attempt);
    }
  }

  lemma {:induction false} DeleteCompanionsEnds(w: World, ctx: Context, entry: Resources, log: Log, r: Resources,
                                                attempt: nat)
    requires Going(w, ctx, entry, log) && Shrunk(entry, r) && Rounds(log) == attempt < Attempts
    ensures var (log', ok) := DeleteCompanions(w, ctx, log, r, attempt); EndsSo(w, ctx, entry, log', ok)
    decreases Attempts - attempt, 1
  {
    var t := DeleteOnce(w, log, r);
    DeleteOnceEnds(w, ctx, entry, log, r);
    if !t.ok {
      AfterFailureEnds(w, ctx, entry, t, r, attempt, true);
    }
  }

  lemma {:induction false} AfterFailureEnds(w: World, ctx: Context, entry: Resources, t: Tally, r: Resources,
                                            attempt: nat, companions: bool)
    requires t.log != [] && Going(w, ctx, entry, Front(t.log)) && NotReading(t.log)
    requires Undeleted(w, t.log) <==> !t.retry || Rounds(t.log) >= Attempts - 1
    requires Going(w, ctx, entry, t.log) <==> !Undeleted(w, t.log)
    requires Shrunk(entry, r) && Rounds(t.log) == attempt < Attempts
    ensures var (log', ok) := AfterFailure(w, ctx, t, r, attempt, companions); EndsSo(w, ctx, entry, log', ok)
    decreases Attempts - attempt, 0
  {
    if t.retry && attempt < Attempts - 1 {
      RefreshEnds(w, ctx, entry, t.log, r);
      var (seen, left) := Refresh(w, ctx, t.log, r);
      if left.Some? && !(companions && IsEmpty(left.value)) {
        DeleteFromEnds(w, ctx, entry, seen, left.value, attempt + 1);
      }
    }
  }

  /** For every world: a cleanup gives up at the first interrupted wait, thirteenth failed try to read, read of
      something that is not its own, or failed batch with nothing to try again or in the thirteenth round, and not
      before; besides these it fails only when a revalidation finds a NIC or disk attached to an absent or different
      VM.  If it succeeds, none of these happened. */
  lemma GivesUpOnlyWithReason(w: World, ctx: Context, entry: Resources)
    ensures var (log, ok) := DeleteValidated(w, ctx, entry); EndsSo(w, ctx, entry, log, ok)
  {
    RetryReadsEnds(w, ctx, entry, [], entry, 0);
    var (seen, v) := RetryReads(w, ctx, [], entry, 0);
    if v.Valid? {
      DeleteFromEnds(w, ctx, entry, seen, v.after, 0);
    }
  }

  // ----- what is deleted -----

  /** The resource is the one this cleanup is for, and nothing else uses it. */
  predicate Ours(ctx: Context, entry: Resources, kind: Kind, v: View, withVM: bool) {
    && (kind != Disk ==> v.owned)
    && TrimSpace(v.identity) != ""
    && (TrimSpace(IdentityOf(entry, kind)) != "" ==> TrimSpace(v.identity) == TrimSpace(IdentityOf(entry, kind)))
    && (kind == NIC ==> (forall id | id in v.references :: SameID(ctx, id, ctx.pipID)) && (!withVM ==> v.users == []))
    && (kind == PublicIP ==> !v.otherUse && forall id | id in v.references :: OwnConfiguration(ctx, id))
    && (kind == Disk && !withVM ==> v.users == [] && v.state == Some("Unattached"))
    && (kind == NSG ==> !v.otherUse && forall id | id in v.references :: SameID(ctx, id, ctx.nicID))
  }

  /** Nothing else is refused: what is ours is accepted, if it has properties, names a NIC only when ours is there,
      and, being a disk, says that it is unattached or by whom it is used. */
  lemma OursIsAccepted(ctx: Context, entry: Resources, hasNIC: bool, kind: Kind, v: View)
    ensures Acceptable(ctx, hasNIC, IdentityOf(entry, kind), kind, v) <==>
            && v.properties && Ours(ctx, entry, kind, v, true)
            && ((kind == PublicIP || kind == NSG) && v.references != [] ==> hasNIC)
            && (kind == Disk ==> v.state == Some("Unattached") || (v.state.Some? && v.users != []))
  {
    if v.references != [] {
      assert v.references[0] in v.references;
    }
  }

  lemma PassedIsOurs(ctx: Context, entry: Resources, seen: Log, before: Resources, after: Resources, kind: Kind)
    returns (v: View)
    requires Passes(ctx, Order, seen, before, after) && Shrunk(entry, before) && Has(after, kind)
    ensures Read(kind, Found(v)) in seen && Ours(ctx, entry, kind, v, after.vm)
  {
    assert Has(before, kind) && Read(kind, Absent) !in seen;
    EveryKindIsRead(kind);
    ExpectedIn(Order, before, kind);
    var i :| 0 <= i < |seen| && Expected(Order, before)[i] == kind;
    var e := seen[i];
    assert ReadPasses(ctx, e, before, after);
    v := e.answer.view;
    if !after.vm {
      assert forall id :: id !in Attachments(kind, v);
      EmptyOrNot(Attachments(kind, v));
    }
  }

  lemma EmptyOrNot(ids: seq<string>)
    ensures ids == [] || exists id :: id in ids
  {
    if ids != [] {
      assert ids[0] in ids;
    }
  }

  lemma {:induction false} OrderlyAt(ctx: Context, entry: Resources, log: Log, i: nat)
    requires Orderly(ctx, entry, log) && i < |log| && log[i].Batch?
    ensures BatchAllowed(ctx, entry, log[..i], log[i].target)
  {
    if i < |log| - 1 {
      OrderlyAt(ctx, entry, Front(log), i);
      assert Front(log)[..i] == log[..i];
    }
  }

  /** The reads right before a batch show the resource. */
  ghost predicate SeenOurs(ctx: Context, entry: Resources, log: Log, i: nat, kind: Kind, v: View, k: nat)
    requires i < |log| && log[i].Batch?
  {
    && k < i && log[k] == Read(kind, Found(v)) && (forall m | k <= m < i :: log[m].Read?)
    && Ours(ctx, entry, kind, v, log[i].target.vm)
  }

  lemma RevalidatedIsOurs(ctx: Context, entry: Resources, log: Log, i: nat, before: Resources, after: Resources,
                          kind: Kind) returns (v: View, k: nat)
    requires i < |log| && log[i].Batch? && Shrunk(entry, before) && EndsRevalidated(ctx, log[..i], before, after)
    requires log[i].target == (if after.vm then OnlyVM() else after) && Has(log[i].target, kind)
    ensures SeenOurs(ctx, entry, log, i, kind, v, k)
  {
    var past := log[..i];
    var j: nat :| j <= |past| && (j == 0 || !past[j - 1].Read?) && Passes(ctx, Order, past[j..], before, after);
    v := PassedIsOurs(ctx, entry, past[j..], before, after, kind);
    k := InLastReads(log, i, j, Read(kind, Found(v)));
  }

  lemma InLastReads(log: Log, i: nat, j: nat, e: Event) returns (k: nat)
    requires j <= i < |log| && e in log[..i][j..] && forall m | 0 <= m < i - j :: log[..i][j..][m].Read?
    ensures k < i && log[k] == e && forall m | k <= m < i :: log[m].Read?
  {
    var seen := log[..i][j..];
    var p :| 0 <= p < |seen| && seen[p] == e;
    k := j + p;
    assert forall m | j <= m < i :: seen[m - j] == log[m];
  }

  /** For every world: whatever a batch deletes was read in the revalidation right before it, carries our tags, has
      the identity it was first seen with, and is used by nothing but the VM and the NIC of this cleanup; companions
      are attached to no VM at all. */
  lemma OnlyOursIsDeleted(w: World, ctx: Context, entry: Resources, i: nat, kind: Kind) returns (v: View, k: nat)
    requires var log := DeleteValidated(w, ctx, entry).0; i < |log| && log[i].Batch? && Has(log[i].target, kind)
    ensures SeenOurs(ctx, entry, DeleteValidated(w, ctx, entry).0, i, kind, v, k)
  {
    CleanupIsOrderly(w, ctx, entry);
    v, k := BatchIsOurs(ctx, entry, DeleteValidated(w, ctx, entry).0, i, kind);
  }

  lemma BatchIsOurs(ctx: Context, entry: Resources, log: Log, i: nat, kind: Kind) returns (v: View, k: nat)
    requires Orderly(ctx, entry, log) && i < |log| && log[i].Batch? && Has(log[i].target, kind)
    ensures SeenOurs(ctx, entry, log, i, kind, v, k)
  {
    OrderlyAt(ctx, entry, log, i);
    var before, after :| Shrunk(entry, before) && EndsRevalidated(ctx, log[..i], before, after) &&
                         log[i].target == if after.vm then OnlyVM() else after;
    v, k := RevalidatedIsOurs(ctx, entry, log, i, before, after, kind);
  }
}

/**
  Azure cleanup: revalidate everything that is left, then delete, and again until it is gone.

  Azure and the clock are oracles: each answer is an arbitrary function of everything that happened
  before, so the world may change between any two steps.
 */
module AzureCleanup {
  import opened Common

  /** In the order in which they are read: the VM last. */
  datatype Kind = NIC | PublicIP | Disk | NSG | VM

  const Order: seq<Kind> := [NIC, PublicIP, Disk, NSG, VM]

  /** What is left to delete, and the immutable identities it was first seen with. */
  datatype Resources = Resources(
    vm: bool, vmID: string, nic: string, nicID: string, publicIP: string, publicIPID: string,
    disk: string, diskID: string, nsg: string, nsgID: string)

  predicate Has(r: Resources, kind: Kind) {
    match kind
    case NIC => r.nic != ""
    case PublicIP => r.publicIP != ""
    case Disk => r.disk != ""
    case NSG => r.nsg != ""
    case VM => r.vm
  }

  function Clear(r: Resources, kind: Kind): Resources {
    match kind
    case NIC => r.(nic := "")
    case PublicIP => r.(publicIP := "")
    case Disk => r.(disk := "")
    case NSG => r.(nsg := "")
    case VM => r.(vm := false)
  }

  function IdentityOf(r: Resources, kind: Kind): string {
    match kind
    case NIC => r.nicID
    case PublicIP => r.publicIPID
    case Disk => r.diskID
    case NSG => r.nsgID
    case VM => r.vmID
  }

  predicate IsEmpty(r: Resources) {
    !r.vm && r.nic == "" && r.publicIP == "" && r.disk == "" && r.nsg == ""
  }

  function OnlyVM(): Resources {
    Resources(true, "", "", "", "", "", "", "", "", "")
  }

  /** `after` is `before` with some names dropped; what it keeps has kept its name and its identity. */
  predicate Shrunk(before: Resources, after: Resources) {
    && (after.vm ==> before.vm) && after.vmID == before.vmID
    && (after.nic == before.nic || after.nic == "") && after.nicID == before.nicID
    && (after.publicIP == before.publicIP || after.publicIP == "") && after.publicIPID == before.publicIPID
    && (after.disk == before.disk || after.disk == "") && after.diskID == before.diskID
    && (after.nsg == before.nsg || after.nsg == "") && after.nsgID == before.nsgID
  }

  // ----- what Azure answers -----

  /**
    One resource as read back.  `owned`: the tags (for a VM, the caller's validation) accept it;
    `properties`: it has any; `users`: the VMs a NIC or disk names; `references`: the public IPs of a NIC,
    the configuration of a public IP, the NICs of a security group; `otherUse`: a NAT gateway or a subnet.
   */
  datatype View = View(
    owned: bool, properties: bool, identity: string, users: seq<string>, references: seq<string>,
    otherUse: bool, state: Option<string>)

  datatype Answer = Absent | Unreadable | Found(view: View)

  datatype Presence = Gone | Present | Unknown(retry: bool)

  datatype Event =
    | Read(kind: Kind, answer: Answer)
    | Waited(ok: bool)
    | Batch(target: Resources)
    | Checked(kind: Kind, presence: Presence)

  type Log = seq<Event>

  /** What the deletes of one batch, side by side, came to. */
  datatype Faults = Faults(any: bool, retry: bool)

  datatype World = World(
    read: (Log, Kind) -> Answer,
    wait: Log -> bool,
    delete: Log -> Faults,
    check: (Log, Kind) -> Presence)

  /** The names this cleanup may meet; `fold` decides case-insensitive equality. */
  datatype Context = Context(vmID: string, nicID: string, pipID: string, fold: string -> string,
                             lower: string -> string)

  predicate SameID(ctx: Context, a: string, b: string) {
    ctx.fold(TrimSpace(a)) == ctx.fold(b)
  }

  predicate IdentityOK(actual: string, expected: string) {
    TrimSpace(actual) != "" && (TrimSpace(expected) == "" || TrimSpace(actual) == TrimSpace(expected))
  }

  /** The configuration is one of our NIC's own. */
  predicate OwnConfiguration(ctx: Context, id: string) {
    var prefix := ctx.lower(ctx.nicID) + "/ipconfigurations/";
    var text := ctx.lower(TrimSpace(id));
    prefix <= text && text[|prefix|..] != "" && '/' !in text[|prefix|..]
  }

  predicate Acceptable(ctx: Context, hasNIC: bool, expected: string, kind: Kind, v: View) {
    && v.properties && (v.owned || kind == Disk) && IdentityOK(v.identity, expected)
    && match kind
       case NIC => forall id | id in v.references :: SameID(ctx, id, ctx.pipID)
       case PublicIP => !v.otherUse && forall id | id in v.references :: hasNIC && OwnConfiguration(ctx, id)
       case Disk => v.state.Some? && (v.state.value == "Unattached" || v.users != [])
       case NSG => !v.otherUse && forall id | id in v.references :: hasNIC && SameID(ctx, id, ctx.nicID)
       case VM => true
  }

  function Attachments(kind: Kind, v: View): seq<string> {
    if kind == NIC || kind == Disk then v.users else []
  }

  // ----- one revalidation -----

  datatype Verdict = Valid(after: Resources) | ReadError | Skip

  function Conclude(ctx: Context, r: Resources, attached: seq<string>): Verdict {
    if forall id | id in attached :: r.vm && SameID(ctx, id, ctx.vmID) then Valid(r) else Skip
  }

  /** Reads the given kinds in turn, as far as they are still expected. */
  function RevalidateFrom(w: World, ctx: Context, log: Log, kinds: seq<Kind>, r: Resources, attached: seq<string>)
    : (Log, Verdict)
    decreases |kinds|, |log|
  {
    if kinds == [] then (log, Conclude(ctx, r, attached))
    else if !Has(r, kinds[0]) then RevalidateFrom(w, ctx, log, kinds[1..], r, attached)
    else
      var answer := w.read(log, kinds[0]);
      var log' := log + [Read(kinds[0], answer)];
      match answer
      case Unreadable => (log', ReadError)
      case Absent => RevalidateFrom(w, ctx, log', kinds[1..], Clear(r, kinds[0]), attached)
      case Found(v) =>
        if !Acceptable(ctx, r.nic != "", IdentityOf(r, kinds[0]), kinds[0], v) then (log', Skip)
        else RevalidateFrom(w, ctx, log', kinds[1..], r, attached + Attachments(kinds[0], v))
  }

  function Expected(kinds: seq<Kind>, r: Resources): seq<Kind> {
    if kinds == [] then []
    else (if Has(r, kinds[0]) then [kinds[0]] else []) + Expected(kinds[1..], r)
  }

  predicate ReadsOf(seen: Log, kinds: seq<Kind>) {
    |seen| == |kinds| && forall i | 0 <= i < |seen| :: seen[i].Read? && seen[i].kind == kinds[i]
  }

  predicate ReadPasses(ctx: Context, e: Event, before: Resources, after: Resources) {
    && e.Read? && !e.answer.Unreadable?
    && (e.answer.Found? ==>
          && Acceptable(ctx, after.nic != "", IdentityOf(before, e.kind), e.kind, e.answer.view)
          && forall id | id in Attachments(e.kind, e.answer.view) :: after.vm && SameID(ctx, id, ctx.vmID))
  }

  /** A complete successful revalidation, told by its reads: everything expected was read once and in
      order, what was found is ours and in no other use, what was absent is what was dropped. */
  ghost predicate Passes(ctx: Context, kinds: seq<Kind>, seen: Log, before: Resources, after: Resources) {
    && ReadsOf(seen, Expected(kinds, before))
    && (forall e | e in seen :: ReadPasses(ctx, e, before, after))
    && Shrunk(before, after)
    && (forall kind :: Has(after, kind) <==> Has(before, kind) && Read(kind, Absent) !in seen)
  }


  lemma {:induction false} ExpectedAfterClear(kinds: seq<Kind>, r: Resources, kind: Kind)
    requires kind !in kinds
    ensures Expected(kinds, Clear(r, kind)) == Expected(kinds, r)
  {
    if kinds != [] {
      assert kinds[0] in kinds;
      ExpectedAfterClear(kinds[1..], r, kind);
    }
  }

  function Dropped(r: Resources, e: Event): Resources
    requires e.Read?
  {
    if e.answer == Absent then Clear(r, e.kind) else r
  }

  lemma ReadsOfCons(e: Event, rest: Log, kinds: seq<Kind>)
    requires e.Read? && kinds != [] && kinds[0] == e.kind
    ensures ReadsOf([e] + rest, kinds) <==> ReadsOf(rest, kinds[1..])
  {
    var all := [e] + rest;
    if ReadsOf(all, kinds) {
      assert forall i | 0 <= i < |rest| :: rest[i] == all[i + 1] && kinds[1..][i] == kinds[i + 1];
    }
    if ReadsOf(rest, kinds[1..]) {
      assert forall i | 1 <= i < |all| :: all[i] == rest[i - 1] && kinds[i] == kinds[1..][i - 1];
    }
  }

  lemma AbsenceCons(e: Event, rest: Log, r: Resources, after: Resources)
    requires e.Read? && Has(r, e.kind)
    ensures (forall kind :: Has(after, kind) <==> Has(r, kind) && Read(kind, Absent) !in [e] + rest) <==>
            (forall kind :: Has(after, kind) <==> Has(Dropped(r, e), kind) && Read(kind, Absent) !in rest)
  {
    forall kind
      ensures (Has(r, kind) && Read(kind, Absent) !in [e] + rest) <==>
              (Has(Dropped(r, e), kind) && Read(kind, Absent) !in rest)
    {
      assert Read(kind, Absent) in [e] + rest <==> e == Read(kind, Absent) || Read(kind, Absent) in rest;
    }
  }

  /** Dropping a name changes no identity, so it changes no check of another read. */
  lemma DroppingKeepsChecks(ctx: Context, e: Event, x: Event, r: Resources, after: Resources)
    requires e.Read?
    ensures ReadPasses(ctx, x, Dropped(r, e), after) == ReadPasses(ctx, x, r, after)
  {
    if x.Read? {
      assert IdentityOf(Dropped(r, e), x.kind) == IdentityOf(r, x.kind);
    }
  }

  lemma AllPassCons(ctx: Context, e: Event, rest: Log, r: Resources, after: Resources)
    requires e.Read?
    ensures (forall x | x in [e] + rest :: ReadPasses(ctx, x, r, after)) <==>
            ReadPasses(ctx, e, r, after) && (forall x | x in rest :: ReadPasses(ctx, x, Dropped(r, e), after))
  {
    var all := [e] + rest;
    assert forall x :: x in all <==> x == e || x in rest;
    forall x | x in rest
      ensures ReadPasses(ctx, x, Dropped(r, e), after) == ReadPasses(ctx, x, r, after)
    {
      DroppingKeepsChecks(ctx, e, x, r, after);
    }
  }

  lemma ShrunkDropped(e: Event, r: Resources, after: Resources)
    requires e.Read? && (e.answer == Absent ==> !Has(after, e.kind))
    ensures Shrunk(r, after) == Shrunk(Dropped(r, e), after)
  {
  }

  lemma PassesCons(ctx: Context, kinds: seq<Kind>, e: Event, rest: Log, r: Resources, after: Resources)
    requires e.Read? && kinds != [] && kinds[0] == e.kind && e.kind !in kinds[1..] && Has(r, e.kind)
    ensures Passes(ctx, kinds, [e] + rest, r, after) <==>
            ReadPasses(ctx, e, r, after) && Passes(ctx, kinds[1..], rest, Dropped(r, e), after)
  {
    ExpectedAfterClear(kinds[1..], r, e.kind);
    assert Expected(kinds, r)[1..] == Expected(kinds[1..], r);
    ReadsOfCons(e, rest, Expected(kinds, r));
    AbsenceCons(e, rest, r, after);
    AllPassCons(ctx, e, rest, r, after);
    if e.answer == Absent ==> !Has(after, e.kind) {
      ShrunkDropped(e, r, after);
    } else {
      assert Read(e.kind, Absent) in [e] + rest;
    }
  }

  predicate AttachedHere(ctx: Context, ids: seq<string>, after: Resources) {
    forall id | id in ids :: after.vm && SameID(ctx, id, ctx.vmID)
  }

  /** The kinds not yet read come after the NIC, so whether there is a NIC is settled for them. */
  predicate Ordered(kinds: seq<Kind>) {
    forall i, j | 0 <= i < j < |kinds| :: kinds[i] != kinds[j] && kinds[j] != NIC
  }

  /** The reads of a revalidation, which are all it adds to the history. */
  function NewEvents(log: Log, log': Log): Log {
    if |log| <= |log'| then log'[|log|..] else []
  }

  ghost predicate Agrees(ctx: Context, kinds: seq<Kind>, seen: Log, r: Resources, attached: seq<string>, v: Verdict) {
    && (v.Valid? ==> Passes(ctx, kinds, seen, r, v.after) && AttachedHere(ctx, attached, v.after))
    && (forall after | Passes(ctx, kinds, seen, r, after) && AttachedHere(ctx, attached, after) :: v == Valid(after))
  }

  lemma NothingRead(ctx: Context, r: Resources, after: Resources)
    ensures Passes(ctx, [], [], r, after) <==> after == r
  {
    if Passes(ctx, [], [], r, after) {
      assert forall kind :: Has(after, kind) <==> Has(r, kind);
      assert Has(after, NIC) == Has(r, NIC) && Has(after, PublicIP) == Has(r, PublicIP);
      assert Has(after, Disk) == Has(r, Disk) && Has(after, NSG) == Has(r, NSG) && Has(after, VM) == Has(r, VM);
    }
  }

  lemma {:induction false} ExpectedIn(kinds: seq<Kind>, r: Resources, kind: Kind)
    ensures kind in Expected(kinds, r) <==> kind in kinds && Has(r, kind)
  {
    if kinds != [] {
      ExpectedIn(kinds[1..], r, kind);
    }
  }

  lemma NICIsSettled(ctx: Context, kinds: seq<Kind>, seen: Log, r: Resources, after: Resources)
    requires NIC !in kinds && Passes(ctx, kinds, seen, r, after)
    ensures (after.nic != "") == (r.nic != "")
  {
    ExpectedIn(kinds, r, NIC);
    assert Has(after, NIC) <==> Has(r, NIC);
  }

  /** The check made when the resource was read is the check that counts at the end. */
  lemma CheckIsFinal(ctx: Context, kinds: seq<Kind>, e: Event, rest: Log, r: Resources, after: Resources)
    requires Ordered(kinds) && kinds != [] && e.Read? && e.kind == kinds[0] && e.answer.Found?
    requires Passes(ctx, kinds[1..], rest, r, after)
    ensures ReadPasses(ctx, e, r, after) <==>
            && Acceptable(ctx, r.nic != "", IdentityOf(r, e.kind), e.kind, e.answer.view)
            && AttachedHere(ctx, Attachments(e.kind, e.answer.view), after)
  {
    if e.kind != NIC {
      NICIsSettled(ctx, kinds[1..], rest, r, after);
    }
  }

  lemma RevalidateReadsOnly(w: World, ctx: Context, log: Log, kinds: seq<Kind>, r: Resources, attached: seq<string>)
    ensures var (log', v) := RevalidateFrom(w, ctx, log, kinds, r, attached);
            log <= log' && forall e | e in NewEvents(log, log') :: e.Read?
    decreases |kinds|
  {
    if kinds != [] {
      var e := Read(kinds[0], w.read(log, kinds[0]));
      RevalidateReadsOnly(w, ctx, log, kinds[1..], r, attached);
      RevalidateReadsOnly(w, ctx, log + [e], kinds[1..], Clear(r, kinds[0]), attached);
      if e.answer.Found? {
        RevalidateReadsOnly(w, ctx, log + [e], kinds[1..], r, attached + Attachments(kinds[0], e.answer.view));
      }
    }
  }

  lemma NewEventsCons(log: Log, e: Event, log': Log)
    requires log + [e] <= log'
    ensures log <= log' && NewEvents(log, log') == [e] + NewEvents(log + [e], log')
  {
    assert log' == log + [e] + log'[|log| + 1..];
  }

  lemma FailsAtOnce(ctx: Context, kinds: seq<Kind>, e: Event, r: Resources, after: Resources)
    requires Ordered(kinds) && kinds != [] && e.Read? && e.kind == kinds[0] && Has(r, e.kind)
    requires e.answer.Found? ==> !Acceptable(ctx, r.nic != "", IdentityOf(r, e.kind), e.kind, e.answer.view)
    requires e.answer != Absent
    ensures !Passes(ctx, kinds, [e], r, after)
  {
    assert [e] == [e] + [];
    PassesCons(ctx, kinds, e, [], r, after);
    if Passes(ctx, kinds, [e], r, after) {
      if e.answer.Found? {
        CheckIsFinal(ctx, kinds, e, [], r, after);
      }
      assert false;
    }
  }

  lemma AgreesAfterRead(ctx: Context, kinds: seq<Kind>, e: Event, rest: Log, r: Resources, attached: seq<string>,
                        v: Verdict)
    requires Ordered(kinds) && kinds != [] && e.Read? && e.kind == kinds[0] && Has(r, e.kind) && !e.answer.Unreadable?
    requires e.answer.Found? ==> Acceptable(ctx, r.nic != "", IdentityOf(r, e.kind), e.kind, e.answer.view)
    requires var more := if e.answer.Found? then Attachments(e.kind, e.answer.view) else [];
             Agrees(ctx, kinds[1..], rest, Dropped(r, e), attached + more, v)
    ensures Agrees(ctx, kinds, [e] + rest, r, attached, v)
  {
    var more := if e.answer.Found? then Attachments(e.kind, e.answer.view) else [];
    forall after
      ensures Passes(ctx, kinds, [e] + rest, r, after) && AttachedHere(ctx, attached, after) <==>
              Passes(ctx, kinds[1..], rest, Dropped(r, e), after) && AttachedHere(ctx, attached + more, after)
    {
      PassesCons(ctx, kinds, e, rest, r, after);
      if Passes(ctx, kinds[1..], rest, Dropped(r, e), after) && e.answer.Found? {
        CheckIsFinal(ctx, kinds, e, rest, r, after);
      }
      AttachedBoth(ctx, attached, more, after);
    }
  }

  lemma AttachedBoth(ctx: Context, a: seq<string>, b: seq<string>, after: Resources)
    ensures AttachedHere(ctx, a + b, after) <==> AttachedHere(ctx, a, after) && AttachedHere(ctx, b, after)
  {
    assert forall id :: id in a + b <==> id in a || id in b;
  }

  /** For every world, a revalidation is accepted exactly when its reads pass. */
  lemma {:induction false} RevalidateAgrees(w: World, ctx: Context, log: Log, kinds: seq<Kind>, r: Resources,
                                            attached: seq<string>)
    requires Ordered(kinds)
    ensures var (log', v) := RevalidateFrom(w, ctx, log, kinds, r, attached);
            log <= log' && Agrees(ctx, kinds, NewEvents(log, log'), r, attached, v)
    decreases |kinds|
  {
    var (log', v) := RevalidateFrom(w, ctx, log, kinds, r, attached);
    RevalidateReadsOnly(w, ctx, log, kinds, r, attached);
    if kinds == [] {
      NothingRead(ctx, r, r);
      forall after | Passes(ctx, [], [], r, after)
        ensures after == r
      {
        NothingRead(ctx, r, after);
      }
    } else if !Has(r, kinds[0]) {
      RevalidateAgrees(w, ctx, log, kinds[1..], r, attached);
      AgreesUnread(ctx, kinds, NewEvents(log, log'), r, attached, v);
    } else {
      var e := Read(kinds[0], w.read(log, kinds[0]));
      if e.answer.Unreadable? || (e.answer.Found? &&
         !Acceptable(ctx, r.nic != "", IdentityOf(r, e.kind), e.kind, e.answer.view)) {
        assert NewEvents(log, log') == [e];
        forall after
          ensures !Passes(ctx, kinds, [e], r, after)
        {
          FailsAtOnce(ctx, kinds, e, r, after);
        }
      } else {
        var more := if e.answer.Found? then Attachments(e.kind, e.answer.view) else [];
        assert attached + [] == attached;
        RevalidateAgrees(w, ctx, log + [e], kinds[1..], Dropped(r, e), attached + more);
        NewEventsCons(log, e, log');
        AgreesAfterRead(ctx, kinds, e, NewEvents(log + [e], log'), r, attached, v);
      }
    }
  }

  lemma AgreesUnread(ctx: Context, kinds: seq<Kind>, seen: Log, r: Resources, attached: seq<string>, v: Verdict)
    requires kinds != [] && !Has(r, kinds[0]) && Agrees(ctx, kinds[1..], seen, r, attached, v)
    ensures Agrees(ctx, kinds, seen, r, attached, v)
  {
    assert Expected(kinds, r) == Expected(kinds[1..], r);
  }

  function Revalidate(w: World, ctx: Context, log: Log, r: Resources): (Log, Verdict) {
    RevalidateFrom(w, ctx, log, Order, r, [])
  }

  /** The revalidation of the whole set: accepted exactly when its reads pass, and then in one way. */
  lemma RevalidateIff(w: World, ctx: Context, log: Log, r: Resources)
    ensures var (log', v) := Revalidate(w, ctx, log, r);
            && log <= log' && (forall e | e in NewEvents(log, log') :: e.Read?)
            && (forall after :: v == Valid(after) <==> Passes(ctx, Order, NewEvents(log, log'), r, after))
  {
    RevalidateAgrees(w, ctx, log, Order, r, []);
    RevalidateReadsOnly(w, ctx, log, Order, r, []);
  }

  /** Once the VM is out of the set, a revalidation passes only if no companion it found names any VM. */
  lemma UnattachedWithoutVM(ctx: Context, kinds: seq<Kind>, seen: Log, before: Resources, after: Resources)
    requires Passes(ctx, kinds, seen, before, after) && !after.vm
    ensures forall e, id | e in seen && e.answer.Found? :: id !in Attachments(e.kind, e.answer.view)
  {
    assert forall e | e in seen :: ReadPasses(ctx, e, before, after);
  }
}

/**
  Worlds in which everything goes well but the launches: EC2 refuses them as a plan says, by the number of the
  pass and the instance type.
 */
module AwsLaunchWorld {
  import opened Common
  import opened AwsErrors
  import opened AwsLaunch
  import opened AwsLaunchSafety

  /** How the launches of a type are refused in the n-th pass. */
  type Plan = (nat, string) -> RunOutcome

  /** The refusals a plan is made of; the last is an answer that got lost. */
  const Capacity: RunOutcome := Rejected("", {InsufficientInstanceCapacity})
  const Terminal: RunOutcome := Rejected("AuthFailure", {})
  const Lost: RunOutcome := Rejected("", {})

  lemma Codes()
    ensures !TerminallyRejected(Capacity) && ReportedError(Capacity) == {InsufficientInstanceCapacity}
    ensures DefinitelyRejected(Capacity)
    ensures TerminallyRejected(Terminal) && ReportedError(Terminal) == {} && DefinitelyRejected(Terminal)
    ensures !TerminallyRejected(Lost) && ReportedError(Lost) == {} && !DefinitelyRejected(Lost)
  {
  }

  function Passes(log: Log): nat {
    if log == [] then 0 else Passes(Front(log)) + if Last(log).PassStarted? then 1 else 0
  }

  function Pad(n: nat): (s: string)
    ensures |s| == n
  {
    seq(n, _ => '-')
  }

  /** A group is named by where the history stands, so that no token comes twice; `pad` makes all of them longer
      than any that is known to have failed. */
  function Planned(pad: nat, plan: Plan): World {
    World(
      (log, region) => None,
      (log, region) => Ok(["small", "medium"]),
      log => KeyMissing,
      log => Ok("key"),
      (log, region) => Ok(Some("image")),
      (log, region) => Ok(Pad(|log|)),
      (log, region, serverType) => Ok("image"),
      (region, serverType, spot, image, group) => Pad(pad) + group + serverType,
      (log, a) => None,
      (log, a) => None,
      (log, a: Attempt) => plan(Passes(log), a.serverType),
      (log, a) => None,
      (log, id) => None)
  }

  const Key: KeyBinding := KeyBinding("key", true, true)

  predicate Shorter(failed: set<string>, n: nat) {
    forall token | token in failed :: |token| < n
  }

  lemma {:induction false} PadExists(failed: set<string>) returns (pad: nat)
    ensures Shorter(failed, pad)
  {
    if failed == {} {
      pad := 0;
    } else {
      var token :| token in failed;
      var rest := PadExists(failed - {token});
      pad := if rest > |token| then rest else |token| + 1;
    }
  }

  // ----- one launch -----

  /** Nothing is pinned, and tokens of that length are new. */
  predicate Free(s: State, n: nat) {
    s.control.Some? ==> s.control.value.pinned.None? && Shorter(s.control.value.failedTokens, n)
  }

  function Admitted(s: State, a: Attempt): State {
    if s.control.Some? && s.control.value.hasBefore
    then State(s.log + [BeforeCalled(a, true)], Some(s.control.value.(pinned := Some(a))))
    else s
  }

  function Refused(s: State, a: Attempt, o: RunOutcome): State
    requires o.Rejected?
  {
    var log := s.log + [Ran(a, o)];
    if s.control.None? then State(log, None)
    else
      var c := s.control.value.(terminal := s.control.value.terminal || TerminallyRejected(o));
      if Retryable(ReportedError(o)) && c.hasDefinite
      then State(log + [DefiniteCalled(a, true)], Some(Resolved(c, a)))
      else State(log, Some(c))
  }

  function Noted(s: State, serverType: string, spot: bool, e: Err): State {
    s.(log := s.log + [Tried(serverType, spot, Some(e))])
  }

  lemma AdmitIs(pad: nat, plan: Plan, s: State, a: Attempt)
    requires Free(s, |a.token|)
    ensures Admit(Planned(pad, plan), s, a) == (Admitted(s, a), None)
  {
  }

  lemma SendIs(pad: nat, plan: Plan, s: State, a: Attempt, o: RunOutcome)
    requires o == plan(Passes(s.log), a.serverType) && o.Rejected?
    ensures Send(Planned(pad, plan), s, a) == (Refused(s, a, o), Failed(ReportedError(o)))
  {
  }

  /** The state after one try of this world. */
  function Tries(s: State, a: Attempt, o: RunOutcome): State
    requires o.Rejected?
  {
    Noted(Refused(Admitted(s, a), a, o), a.serverType, a.spot, ReportedError(o))
  }

  function TheAttempt(pad: nat, plan: Plan, cfg: Config, s: State, site: Site, serverType: string): Attempt {
    MakeAttempt(Planned(pad, plan), cfg, s, site.region, serverType, cfg.spot, "image", site.groupID)
  }

  lemma TryIs(pad: nat, plan: Plan, cfg: Config, s: State, site: Site, serverType: string, o: RunOutcome)
    requires site.image == Some("image") && o == plan(Passes(s.log), serverType) && o.Rejected?
    requires Free(s, pad + |site.groupID| + |serverType|)
    ensures var a := TheAttempt(pad, plan, cfg, s, site, serverType);
            TryCreate(Planned(pad, plan), cfg, s, site, serverType, cfg.spot) ==
            (Tries(s, a, o), Failed(ReportedError(o)))
  {
    var a := TheAttempt(pad, plan, cfg, s, site, serverType);
    Snoc(s.log, BeforeCalled(a, true));
    AdmitIs(pad, plan, s, a);
    SendIs(pad, plan, Admitted(s, a), a, o);
  }

  // ----- what a try leaves behind -----

  lemma TryFacts(s: State, a: Attempt, o: RunOutcome)
    requires o.Rejected?
    ensures var s' := Tries(s, a, o);
            && Passes(s'.log) == Passes(s.log) && |s'.log| > |s.log|
            && HasTerminal(s'.log) == (HasTerminal(s.log) || TerminallyRejected(o))
  {
    var s1 := Admitted(s, a);
    Snoc(s.log, BeforeCalled(a, true));
    assert Passes(s1.log) == Passes(s.log) && HasTerminal(s1.log) == HasTerminal(s.log);
    var ran := s1.log + [Ran(a, o)];
    Snoc(s1.log, Ran(a, o));
    assert Passes(ran) == Passes(s.log) && HasTerminal(ran) == (HasTerminal(s.log) || TerminallyRejected(o));
    Snoc(ran, DefiniteCalled(a, true));
    var s2 := Refused(s1, a, o);
    assert Passes(s2.log) == Passes(s.log) && HasTerminal(s2.log) == HasTerminal(ran);
    Snoc(s2.log, Tried(a.serverType, a.spot, Some(ReportedError(o))));
  }

  // ----- one pass -----

  /** The state in which the launches of a pass begin, and what they share. */
  function Entered(s: State, region: string): State {
    BindKey(s.(log := s.log + [PassStarted(region)]), Key)
  }

  function SiteOf(s: State, region: string): Site {
    Site(region, Some("image"), Pad(|s.log| + 2))
  }

  lemma EnteredFacts(s: State, region: string)
    ensures var s' := Entered(s, region);
            && Passes(s'.log) == Passes(s.log) + 1 && |s'.log| == |s.log| + 2
            && HasTerminal(s'.log) == HasTerminal(s.log)
  {
    var started := s.log + [PassStarted(region)];
    Snoc(s.log, PassStarted(region));
    Snoc(started, KeyBound(Key));
    assert Passes(started) == Passes(s.log) + 1 && HasTerminal(started) == HasTerminal(s.log);
  }

  /** A pass is its sweep and the rollback. */
  lemma PassIs(pad: nat, plan: Plan, cfg: Config, s: State, region: string, s': State, e: Err)
    requires TryAll(Planned(pad, plan), cfg, Entered(s, region), SiteOf(s, region), ["small", "medium"], cfg.spot,
                    [], []) == (s', Stopped(Failed(e)))
    ensures RegionPass(Planned(pad, plan), cfg, s, region) ==
            var (s'', e') := Rollback(Planned(pad, plan), s', Key, e); (s'', Failed(e'))
  {
    var w, bound, site := Planned(pad, plan), Entered(s, region), SiteOf(s, region);
    assert SearchMarkets(w, cfg, bound, site, ["small", "medium"]) == (s', Failed(e));
    assert |bound.log| == |s.log| + 2;
    assert Provision(w, cfg, bound, region, ["small", "medium"]) == (s', Failed(e));
  }

  /** The sweep ends at the first type. */
  lemma StopsAtSmall(pad: nat, plan: Plan, cfg: Config, s: State, site: Site, o: RunOutcome)
    requires site.image == Some("image") && o == plan(Passes(s.log), "small") && o.Rejected? && ReportedError(o) == {}
    requires Free(s, pad + |site.groupID| + 5)
    ensures var a := TheAttempt(pad, plan, cfg, s, site, "small");
            TryAll(Planned(pad, plan), cfg, s, site, ["small", "medium"], cfg.spot, [], []) ==
            (Tries(s, a, o), Stopped(Failed({})))
  {
    TryIs(pad, plan, cfg, s, site, "small", o);
    UnionOfNothing();
  }

  lemma UnionOfNothing()
    ensures var none: seq<Err> := []; Union(none + [{}]) == {}
  {
    var none: seq<Err> := [];
    UnionSnoc(none, {});
    assert Union(none) == {};
  }

  /** The sweep goes on to the second type, and ends there. */
  lemma StopsAtMedium(pad: nat, plan: Plan, cfg: Config, s: State, site: Site, s1: State, o: RunOutcome)
    requires site.image == Some("image") && plan(Passes(s.log), "small") == Capacity
    requires Free(s, pad + |site.groupID| + 5)
    requires s1 == Tries(s, TheAttempt(pad, plan, cfg, s, site, "small"), Capacity)
    requires o == plan(Passes(s1.log), "medium") && o.Rejected? && ReportedError(o) == {}
    requires Free(s1, pad + |site.groupID| + 6)
    ensures var a := TheAttempt(pad, plan, cfg, s1, site, "medium");
            TryAll(Planned(pad, plan), cfg, s, site, ["small", "medium"], cfg.spot, [], []) ==
            (Tries(s1, a, o), Stopped(Failed({InsufficientInstanceCapacity})))
  {
    var w := Planned(pad, plan);
    Codes();
    TryIs(pad, plan, cfg, s, site, "small", Capacity);
    TryIs(pad, plan, cfg, s1, site, "medium", o);
    var none: seq<Err> := [];
    var errs := none + [{InsufficientInstanceCapacity}];
    var fallback: seq<string> := if cfg.spot then [] + ["small"] else [];
    JoinedErrors();
    assert ["small", "medium"][1..] == ["medium"] && ["medium"][0] == "medium";
    assert TryAll(w, cfg, s1, site, ["medium"], cfg.spot, errs, fallback) ==
           (Tries(s1, TheAttempt(pad, plan, cfg, s1, site, "medium"), o),
            Stopped(Failed({InsufficientInstanceCapacity})));
  }

  lemma JoinedErrors()
    ensures var none: seq<Err> := [];
            Union(none + [{InsufficientInstanceCapacity}] + [{}]) == {InsufficientInstanceCapacity}
  {
    var none: seq<Err> := [];
    UnionSnoc(none, {InsufficientInstanceCapacity});
    UnionSnoc(none + [{InsufficientInstanceCapacity}], {});
    assert Union(none) == {};
  }

  // ----- passes that follow one another -----

  /** The launches of the next pass have new tokens. */
  predicate Fresh(s: State, pad: nat) {
    Free(s, pad + |s.log| + 7)
  }

  /** A refusal for capacity leaves nothing pinned. */
  predicate Reopens(s: State) {
    s.control.None? || s.control.value.hasDefinite || !s.control.value.hasBefore
  }

  /** Then the next launch of the same pass can be sent as well. */
  lemma SmallReopens(pad: nat, plan: Plan, cfg: Config, s: State, region: string)
    requires Fresh(s, pad) && Reopens(s)
    ensures var bound, site := Entered(s, region), SiteOf(s, region);
            var s1 := Tries(bound, TheAttempt(pad, plan, cfg, bound, site, "small"), Capacity);
            Free(bound, pad + |site.groupID| + 5) && Free(s1, pad + |site.groupID| + 6)
  {
    Codes();
  }

  /** The state after a pass whose first launch is refused for capacity and whose second is refused silently. */
  function TwoTries(pad: nat, plan: Plan, cfg: Config, s: State, region: string, o: RunOutcome): State
    requires o.Rejected?
  {
    var bound, site := Entered(s, region), SiteOf(s, region);
    var s1 := Tries(bound, TheAttempt(pad, plan, cfg, bound, site, "small"), Capacity);
    Tries(s1, TheAttempt(pad, plan, cfg, s1, site, "medium"), o)
  }

  lemma TwoTriesPass(pad: nat, plan: Plan, cfg: Config, s: State, region: string, o: RunOutcome)
    requires Fresh(s, pad) && Reopens(s)
    requires plan(Passes(s.log) + 1, "small") == Capacity && plan(Passes(s.log) + 1, "medium") == o
    requires o.Rejected? && ReportedError(o) == {}
    ensures RegionPass(Planned(pad, plan), cfg, s, region) ==
            var (s', e) := Rollback(Planned(pad, plan), TwoTries(pad, plan, cfg, s, region, o), Key,
                                    {InsufficientInstanceCapacity});
            (s', Failed(e))
  {
    var bound, site := Entered(s, region), SiteOf(s, region);
    var a := TheAttempt(pad, plan, cfg, bound, site, "small");
    var s1 := Tries(bound, a, Capacity);
    EnteredFacts(s, region);
    SmallReopens(pad, plan, cfg, s, region);
    TryFacts(bound, a, Capacity);
    StopsAtMedium(pad, plan, cfg, bound, site, s1, o);
    PassIs(pad, plan, cfg, s, region, TwoTries(pad, plan, cfg, s, region, o), {InsufficientInstanceCapacity});
  }
}

/**
  Whether one call can start two instances: exactly when every request of a run but the last was definitely
  rejected, and, where that fails, the world in which a launch of unknown outcome is followed by another.
 */
module AwsLaunchSingle {
  import opened Common
  import opened AwsErrors
  import opened AwsLaunch
  import opened AwsLaunchSafety
  import opened AwsLaunchPass
  import opened AwsLaunchWorld
  import opened AwsLaunchHazard

  // ----- what a history says -----

  /** Every request but the last was definitely rejected, so at most one can have started an instance. */
  predicate StartsAtMostOne(log: Log) {
    forall i, j | 0 <= i < j < |log| && log[i].Ran? && log[j].Ran? :: DefinitelyRejected(log[i].outcome)
  }

  predicate AllRejected(log: Log) {
    log == [] || (AllRejected(Front(log)) && (Last(log).Ran? ==> DefinitelyRejected(Last(log).outcome)))
  }

  /** The same, from the end of the history. */
  predicate OnlyLastOpen(log: Log) {
    log == [] || if Last(log).Ran? then AllRejected(Front(log)) else OnlyLastOpen(Front(log))
  }

  lemma {:induction false} AllRejectedIff(log: Log)
    ensures AllRejected(log) <==> forall i | 0 <= i < |log| && log[i].Ran? :: DefinitelyRejected(log[i].outcome)
  {
    if log != [] {
      AllRejectedIff(Front(log));
      assert forall i | 0 <= i < |log| - 1 :: Front(log)[i] == log[i];
    }
  }

  lemma {:induction false} OnlyLastOpenIff(log: Log)
    ensures OnlyLastOpen(log) <==> StartsAtMostOne(log)
  {
    if log != [] {
      var n := |log| - 1;
      OnlyLastOpenIff(Front(log));
      AllRejectedIff(Front(log));
      assert forall i | 0 <= i < n :: Front(log)[i] == log[i];
      if Last(log).Ran? {
        assert log[n].Ran?;
        assert StartsAtMostOne(log) ==> forall i | 0 <= i < n && log[i].Ran? :: DefinitelyRejected(log[i].outcome);
      }
    }
  }

  lemma {:induction false} RejectedIsClosed(log: Log)
    requires AllRejected(log)
    ensures OnlyLastOpen(log)
  {
    if log != [] {
      RejectedIsClosed(Front(log));
    }
  }

  lemma Sent(log: Log, a: Attempt, o: RunOutcome)
    ensures var log' := log + [Ran(a, o)];
            && (AllRejected(log') <==> AllRejected(log) && DefinitelyRejected(o))
            && (OnlyLastOpen(log') <==> AllRejected(log))
  {
    Snoc(log, Ran(a, o));
  }

  /** Two histories that have the same requests open. */
  predicate SameRuns(log: Log, log': Log) {
    (AllRejected(log') <==> AllRejected(log)) && (OnlyLastOpen(log') <==> OnlyLastOpen(log))
  }

  lemma Quiet(log: Log, e: Event)
    requires !e.Ran?
    ensures SameRuns(log, log + [e])
  {
    Snoc(log, e);
  }

  // ----- one pass sends at most one request that is not rejected -----

  predicate Terminated(s: State) {
    s.control.Some? && s.control.value.terminal
  }

  predicate Records(s: State) {
    s.control.Some? && s.control.value.hasBefore
  }

  /** After any number of rejected requests at most one is open, and a control that records attempts has it
      pinned, with the flag as it was. */
  predicate Closes(s: State, s': State) {
    && SameCallbacks(s, s') && OnlyLastOpen(s'.log)
    && (!AllRejected(s'.log) && Records(s) ==> Pinned(s').Some? && Terminated(s') == Terminated(s))
  }

  /** Nothing is open, and the flag is as it was. */
  predicate GoesOn(s: State, s': State) {
    AllRejected(s'.log) && Terminated(s') == Terminated(s)
  }

  predicate Launch(s: State, s': State, r: Reply<Attempt, Err>) {
    Closes(s, s') && (r.Failed? && Retryable(r.error) ==> GoesOn(s, s'))
  }

  lemma SettleCloses(w: World, s: State, a: Attempt, o: RunOutcome)
    requires o.Rejected? && OnlyLastOpen(s.log) && (AllRejected(s.log) <==> DefinitelyRejected(o))
    requires Records(s) ==> Pinned(s) == Some(a)
    ensures var (s', e) := Settle(w, s, a, o); Launch(s, s', Failed(e))
  {
    Quiet(s.log, DefiniteCalled(a, w.definite(s.log, a).None?));
  }

  lemma SendCloses(w: World, s: State, a: Attempt)
    requires AllRejected(s.log) && (Records(s) ==> Pinned(s) == Some(a))
    ensures var (s', r) := Send(w, s, a); Launch(s, s', r)
  {
    var o := w.run(s.log, a);
    Sent(s.log, a, o);
    if o.Rejected? {
      SettleCloses(w, s.(log := s.log + [Ran(a, o)]), a, o);
    }
  }

  /** Admitting sends nothing, and pins what is then sent. */
  lemma AdmitIsQuiet(w: World, s: State, a: Attempt)
    ensures var (s', refused) := Admit(w, s, a);
            && SameRuns(s.log, s'.log) && SameCallbacks(s, s') && Terminated(s') == Terminated(s)
            && (refused.None? && Records(s) ==> Pinned(s') == Some(a))
  {
    Quiet(s.log, BeforeCalled(a, w.before(s.log, a).None?));
  }

  lemma CreateServerCloses(w: World, cfg: Config, s: State, region: string, serverType: string, spot: bool,
                           imageID: string, groupID: string)
    requires AllRejected(s.log)
    ensures var (s', r) := CreateServer(w, cfg, s, region, serverType, spot, imageID, groupID); Launch(s, s', r)
  {
    RejectedIsClosed(s.log);
    var a := MakeAttempt(w, cfg, s, region, serverType, spot, imageID, groupID);
    if w.prepare(s.log, a).None? {
      AdmitIsQuiet(w, s, a);
      var (admitted, refused) := Admit(w, s, a);
      if refused.None? {
        SendCloses(w, admitted, a);
      }
    }
  }

  lemma TryCreateCloses(w: World, cfg: Config, s: State, site: Site, serverType: string, spot: bool)
    requires AllRejected(s.log)
    ensures var (s', r) := TryCreate(w, cfg, s, site, serverType, spot); Launch(s, s', r)
  {
    RejectedIsClosed(s.log);
    var resolved := if site.image.Some? then Ok(site.image.value)
                    else w.image(s.log, site.region, serverType);
    if resolved.Ok? {
      CreateServerCloses(w, cfg, s, site.region, serverType, spot, resolved.value, site.groupID);
      var (s1, r) := CreateServer(w, cfg, s, site.region, serverType, spot, resolved.value, site.groupID);
      Quiet(s1.log, Tried(serverType, spot, if r.Ok? then None else Some(r.error)));
    } else {
      Quiet(s.log, Tried(serverType, spot, Some(resolved.error)));
    }
  }

  lemma {:induction false} TryAllCloses(w: World, cfg: Config, s: State, site: Site, todo: seq<string>, spot: bool,
                                        errs: seq<Err>, fallback: seq<string>)
    requires AllRejected(s.log)
    ensures var (s', scan) := TryAll(w, cfg, s, site, todo, spot, errs, fallback);
            Closes(s, s') && (scan.Exhausted? ==> GoesOn(s, s'))
    decreases |todo|
  {
    RejectedIsClosed(s.log);
    if todo != [] {
      TryCreateCloses(w, cfg, s, site, todo[0], spot);
      var (s1, r) := TryCreate(w, cfg, s, site, todo[0], spot);
      if r.Failed? && Retryable(r.error) {
        var fallback' := if spot && MarketFallback(r.error) then fallback + [todo[0]] else fallback;
        TryAllCloses(w, cfg, s1, site, todo[1..], spot, errs + [r.error], fallback');
      }
    }
  }

  lemma ProvisionCloses(w: World, cfg: Config, s: State, region: string, candidates: seq<string>)
    requires AllRejected(s.log)
    ensures Closes(s, Provision(w, cfg, s, region, candidates).0)
  {
    RejectedIsClosed(s.log);
    var image := w.staticImage(s.log, region);
    var group := w.group(s.log, region);
    if image.Ok? && group.Ok? {
      var site := Site(region, image.value, group.value);
      TryAllCloses(w, cfg, s, site, candidates, cfg.spot, [], []);
      var (s1, first) := TryAll(w, cfg, s, site, candidates, cfg.spot, [], []);
      if first.Exhausted? {
        TryAllCloses(w, cfg, s1, site, first.fallback, false, first.errs, []);
      }
    }
  }

  /** The rollback sends nothing, and lets go of a pinned attempt only under the flag. */
  lemma RollbackIsQuiet(w: World, s: State, key: KeyBinding, e: Err)
    ensures var s' := Rollback(w, s, key, e).0;
            && SameRuns(s.log, s'.log) && SameCallbacks(s, s')
            && (Pinned(s').None? ==> Pinned(s).None? || (Terminated(s) && s.control.value.hasDefinite))
  {
    var deleted := s.log + [KeyDeleted(key.id, w.deleteKey(s.log, key.id).None?)];
    Quiet(s.log, KeyDeleted(key.id, w.deleteKey(s.log, key.id).None?));
    if Pinned(s).Some? {
      var a := Pinned(s).value;
      Quiet(s.log, DefiniteCalled(a, w.definite(s.log, a).None?));
      Quiet(deleted, DefiniteCalled(a, w.definite(deleted, a).None?));
    }
  }

  /** A pass entered with every request rejected leaves at most one that is not; and it leaves that one pinned,
      if the control records attempts and the flag was down or cannot be acted upon. */
  lemma PassCloses(w: World, cfg: Config, s: State, region: string)
    requires AllRejected(s.log)
    ensures var s' := RegionPass(w, cfg, s, region).0;
            && SameCallbacks(s, s') && OnlyLastOpen(s'.log)
            && (Records(s) && (!Terminated(s) || !s.control.value.hasDefinite) && Pinned(s').None? ==>
                  AllRejected(s'.log))
  {
    RejectedIsClosed(s.log);
    var s0 := s.(log := s.log + [PassStarted(region)]);
    Quiet(s.log, PassStarted(region));
    var candidates := w.candidates(s0.log, region);
    var key := EnsureKeyBinding(w, s0.log);
    if candidates.Ok? && key.Ok? {
      Quiet(s0.log, KeyBound(key.value));
      var bound := BindKey(s0, key.value);
      ProvisionCloses(w, cfg, bound, region, candidates.value);
      var (s1, r) := Provision(w, cfg, bound, region, candidates.value);
      if r.Failed? {
        RollbackIsQuiet(w, s1, key.value, r.error);
      }
    }
  }

  // ----- a whole run -----

  /** How many regions can be searched without a second open request: one, if nothing records the attempts or the
      flag is up; two, if the first can raise it; any number, if nothing lets go of a recorded attempt. */
  predicate WithinReach(control: Option<Control>, regions: nat) {
    if control.None? || !control.value.hasBefore then regions <= 1
    else if !control.value.hasDefinite then true
    else if control.value.terminal then regions <= 1
    else regions <= 2
  }

  /** What a caller can see before the call. */
  predicate SingleEntry(control: Option<Control>, regions: seq<string>) {
    (control.Some? && control.value.pinned.Some?) || WithinReach(control, |regions|)
  }

  ghost predicate RunStartsAtMostOne(w: World, cfg: Config, control: Option<Control>, home: string,
                                     regions: seq<string>) {
    StartsAtMostOne(CreateServerWithFallback(w, cfg, State([], control), home, regions).0.log)
  }

  lemma {:induction false} RegionsClose(w: World, cfg: Config, s: State, home: string, todo: seq<string>,
                                        errs: seq<Err>)
    requires OnlyLastOpen(s.log) && (todo != [] ==> AllRejected(s.log) && WithinReach(s.control, |todo|))
    ensures OnlyLastOpen(SearchRegions(w, cfg, s, home, todo, errs).0.log)
    decreases |todo|
  {
    if todo != [] {
      var noClient := if todo[0] != home then w.client(s.log, todo[0]) else None;
      if noClient.Some? {
        RegionsClose(w, cfg, s, home, todo[1..], errs + [noClient.value]);
      } else {
        PassCloses(w, cfg, s, todo[0]);
        var (s1, r) := RegionPass(w, cfg, s, todo[0]);
        if r.Failed? && ShouldRetryRegion(r.error, s1.control) {
          RegionsClose(w, cfg, s1, home, todo[1..], errs + [r.error]);
        }
      }
    }
  }

  lemma SingleEntryStartsOne(w: World, cfg: Config, control: Option<Control>, home: string, regions: seq<string>)
    requires SingleEntry(control, regions)
    ensures RunStartsAtMostOne(w, cfg, control, home, regions)
  {
    var s := State([], control);
    if Pinned(s).None? {
      if |regions| > 1 {
        RegionsClose(w, cfg, s, home, regions, []);
      } else {
        PassCloses(w, cfg, s, cfg.region);
      }
    }
    OnlyLastOpenIff(CreateServerWithFallback(w, cfg, s, home, regions).0.log);
  }

  // ----- where it fails -----

  /** The answer to the last launch of pass `k` is lost, and the first launch of the next pass succeeds; before
      that "medium" is refused with a terminal code. */
  function LostAt(k: nat): Plan {
    (pass, serverType) => if pass > k then Launched(1)
                          else if serverType == "small" then Capacity
                          else if pass < k then Terminal
                          else Lost
  }

  /** The control does not record attempts, or lets go of whatever is pinned. */
  predicate Loose(s: State) {
    s.control.None? || !s.control.value.hasBefore || (s.control.value.terminal && s.control.value.hasDefinite)
  }

  lemma TryIsSent(s: State, a: Attempt, o: RunOutcome)
    requires o.Rejected?
    ensures AllRejected(Tries(s, a, o).log) <==> AllRejected(s.log) && DefinitelyRejected(o)
  {
    var s1 := Admitted(s, a);
    Quiet(s.log, BeforeCalled(a, true));
    var ran := s1.log + [Ran(a, o)];
    Sent(s1.log, a, o);
    Quiet(ran, DefiniteCalled(a, true));
    Quiet(Refused(s1, a, o).log, Tried(a.serverType, a.spot, Some(ReportedError(o))));
  }

  lemma KeyDeletedIsNoPass(log: Log)
    ensures Passes(log + [KeyDeleted("key", true)]) == Passes(log)
  {
    Snoc(log, KeyDeleted("key", true));
  }

  /** Where nothing is pinned, the rollback deletes the key it created. */
  lemma UnpinnedRollback(pad: nat, plan: Plan, s: State, e: Err)
    requires Pinned(s).None?
    ensures Rollback(Planned(pad, plan), s, Key, e) == (s.(log := s.log + [KeyDeleted("key", true)]), e)
  {
  }

  /** The launches of a pass whose last answer is lost. */
  lemma LostTries(pad: nat, plan: Plan, cfg: Config, s: State, region: string) returns (a: Attempt)
    requires Fresh(s, pad) && Loose(s)
    ensures var swept := TwoTries(pad, plan, cfg, s, region, Lost);
            && !AllRejected(swept.log) && Passes(swept.log) == Passes(s.log) + 1
            && SameCallbacks(s, swept) && Terminated(swept) == Terminated(s)
            && Pinned(swept) == (if Records(s) then Some(a) else None)
            && (s.control.Some? ==> Shorter(swept.control.value.failedTokens, pad + |swept.log| + 7))
  {
    Codes();
    var bound, site := Entered(s, region), SiteOf(s, region);
    var a1 := TheAttempt(pad, plan, cfg, bound, site, "small");
    var s1 := Tries(bound, a1, Capacity);
    a := TheAttempt(pad, plan, cfg, s1, site, "medium");
    EnteredFacts(s, region);
    TryFacts(bound, a1, Capacity);
    TryFacts(s1, a, Lost);
    TryIsSent(s1, a, Lost);
  }

  /** Where the control is loose, the rollback leaves nothing pinned. */
  lemma LooseRollback(pad: nat, plan: Plan, s: State, a: Attempt, e: Err)
    requires Loose(s) && Pinned(s) == if Records(s) then Some(a) else None
    ensures var (s', e') := Rollback(Planned(pad, plan), s, Key, e);
            && e' == e && Pinned(s').None? && Passes(s'.log) == Passes(s.log) && |s'.log| > |s.log|
            && (s.control.Some? ==> s'.control.Some? && s'.control.value.failedTokens == s.control.value.failedTokens)
  {
    if Records(s) {
      FlaggedRollback(Planned(pad, plan), s, a, e);
      QuietEnd(s.log, a);
    } else {
      UnpinnedRollback(pad, plan, s, e);
      KeyDeletedIsNoPass(s.log);
    }
  }

  /** A pass whose last answer is lost ends with nothing pinned, and the search goes on. */
  lemma LostPass(pad: nat, plan: Plan, cfg: Config, s: State, region: string)
    requires Fresh(s, pad) && Loose(s)
    requires plan(Passes(s.log) + 1, "small") == Capacity && plan(Passes(s.log) + 1, "medium") == Lost
    ensures var (s', r) := RegionPass(Planned(pad, plan), cfg, s, region);
            && Fresh(s', pad) && !AllRejected(s'.log) && Passes(s'.log) == Passes(s.log) + 1
            && r.Failed? && ShouldRetryRegion(r.error, s'.control)
  {
    Codes();
    TwoTriesPass(pad, plan, cfg, s, region, Lost);
    var swept := TwoTries(pad, plan, cfg, s, region, Lost);
    var a := LostTries(pad, plan, cfg, s, region);
    LooseRollback(pad, plan, swept, a, {InsufficientInstanceCapacity});
    RollbackIsQuiet(Planned(pad, plan), swept, Key, {InsufficientInstanceCapacity});
  }

  /** The state after a launch that succeeds. */
  function Started(s: State, a: Attempt): State {
    var admitted := Admitted(s, a);
    admitted.(log := admitted.log + [Ran(a, Launched(1))] + [Tried(a.serverType, a.spot, None)])
  }

  lemma StartedIsSent(s: State, a: Attempt)
    ensures OnlyLastOpen(Started(s, a).log) <==> AllRejected(s.log)
  {
    Quiet(s.log, BeforeCalled(a, true));
    var log := Admitted(s, a).log;
    Sent(log, a, Launched(1));
    Quiet(log + [Ran(a, Launched(1))], Tried(a.serverType, a.spot, None));
  }

  lemma SendStarts(pad: nat, plan: Plan, s: State, a: Attempt)
    requires plan(Passes(s.log), a.serverType) == Launched(1)
    ensures Send(Planned(pad, plan), s, a) == (s.(log := s.log + [Ran(a, Launched(1))]), Ok(a))
  {
  }

  lemma TryStarts(pad: nat, plan: Plan, cfg: Config, s: State, site: Site, serverType: string)
    requires site.image == Some("image") && plan(Passes(s.log), serverType) == Launched(1)
    requires Free(s, pad + |site.groupID| + |serverType|)
    ensures var a := TheAttempt(pad, plan, cfg, s, site, serverType);
            TryCreate(Planned(pad, plan), cfg, s, site, serverType, cfg.spot) == (Started(s, a), Ok(a))
  {
    var a := TheAttempt(pad, plan, cfg, s, site, serverType);
    Snoc(s.log, BeforeCalled(a, true));
    AdmitIs(pad, plan, s, a);
    SendStarts(pad, plan, Admitted(s, a), a);
  }

  /** The next pass launches its first type. */
  lemma NextPassLaunches(pad: nat, plan: Plan, cfg: Config, s: State, region: string)
    requires Fresh(s, pad) && plan(Passes(s.log) + 1, "small") == Launched(1) && !AllRejected(s.log)
    ensures var (s', r) := RegionPass(Planned(pad, plan), cfg, s, region);
            !OnlyLastOpen(s'.log) && r.Ok? && r.value.Some?
  {
    var w := Planned(pad, plan);
    var bound, site := Entered(s, region), SiteOf(s, region);
    var a := TheAttempt(pad, plan, cfg, bound, site, "small");
    EnteredFacts(s, region);
    TryStarts(pad, plan, cfg, bound, site, "small");
    assert Provision(w, cfg, bound, region, ["small", "medium"]) == (Started(bound, a), Ok(Some(a)));
    Quiet(s.log, PassStarted(region));
    Quiet(s.log + [PassStarted(region)], KeyBound(Key));
    StartedIsSent(bound, a);
  }

  /** Two regions are enough for that where the first pass lets go of what it sent. */
  lemma TwoRegionsLaunchTwice(k: nat, pad: nat, cfg: Config, s: State, home: string, todo: seq<string>, errs: seq<Err>)
    requires Fresh(s, pad) && Loose(s) && Passes(s.log) + 1 == k && |todo| > 1
    ensures var (s', r) := SearchRegions(Planned(pad, LostAt(k)), cfg, s, home, todo, errs);
            !OnlyLastOpen(s'.log) && r.Ok? && r.value.Some?
  {
    var w := Planned(pad, LostAt(k));
    LostPass(pad, LostAt(k), cfg, s, todo[0]);
    var (s1, r1) := RegionPass(w, cfg, s, todo[0]);
    NextPassLaunches(pad, LostAt(k), cfg, s1, todo[1]);
    assert todo[1..][0] == todo[1];
    assert SearchRegions(w, cfg, s1, home, todo[1..], errs + [r1.error]) == RegionPass(w, cfg, s1, todo[1]);
  }

  /** For a fixed lease it takes three: in the first, a terminal code raises the flag; in the second, the answer to
      a launch is lost and the flag writes the launch off; in the third another instance is started. */
  lemma ThreeRegionsLaunchTwice(cfg: Config, c: Control, home: string, regions: seq<string>) returns (w: World)
    requires c.pinned.None? && c.hasBefore && c.hasDefinite && !c.terminal && |regions| > 2
    ensures var (s, r) := CreateServerWithFallback(w, cfg, State([], Some(c)), home, regions);
            !StartsAtMostOne(s.log) && r.Ok? && r.value.Some?
  {
    var pad := PadExists(c.failedTokens);
    w := Planned(pad, LostAt(2));
    var s := State([], Some(c));
    TerminalPass(pad, LostAt(2), cfg, s, regions[0]);
    var (s1, r1) := RegionPass(w, cfg, s, regions[0]);
    var none: seq<Err> := [];
    TwoRegionsLaunchTwice(2, pad, cfg, s1, home, regions[1..], none + [r1.error]);
    assert SearchRegions(w, cfg, s, home, regions, none) ==
           SearchRegions(w, cfg, s1, home, regions[1..], none + [r1.error]);
    OnlyLastOpenIff(SearchRegions(w, cfg, s, home, regions, none).0.log);
  }

  /** Without a record of the attempts, or with the flag up, two are enough. */
  lemma LooseEntryLaunchesTwice(cfg: Config, control: Option<Control>, home: string, regions: seq<string>)
    returns (w: World)
    requires Pinned(State([], control)).None? && Loose(State([], control)) && |regions| > 1
    ensures var (s, r) := CreateServerWithFallback(w, cfg, State([], control), home, regions);
            !StartsAtMostOne(s.log) && r.Ok? && r.value.Some?
  {
    var pad := PadExists(if control.Some? then control.value.failedTokens else {});
    w := Planned(pad, LostAt(1));
    var s := State([], control);
    TwoRegionsLaunchTwice(1, pad, cfg, s, home, regions, []);
    OnlyLastOpenIff(SearchRegions(w, cfg, s, home, regions, []).0.log);
  }

  /** For every configuration, control, home and list of regions: no world makes one call send a request after
      one that may have started an instance, if and only if the regions are within reach. */
  lemma SingleLaunchIff(cfg: Config, control: Option<Control>, home: string, regions: seq<string>)
    ensures (forall w :: RunStartsAtMostOne(w, cfg, control, home, regions)) <==> SingleEntry(control, regions)
  {
    if SingleEntry(control, regions) {
      forall w
        ensures RunStartsAtMostOne(w, cfg, control, home, regions)
      {
        SingleEntryStartsOne(w, cfg, control, home, regions);
      }
    } else if Loose(State([], control)) {
      var w := LooseEntryLaunchesTwice(cfg, control, home, regions);
      assert !RunStartsAtMostOne(w, cfg, control, home, regions);
    } else {
      var w := ThreeRegionsLaunchTwice(cfg, control.value, home, regions);
      assert !RunStartsAtMostOne(w, cfg, control, home, regions);
    }
  }

  /** For a fixed lease: exactly when there is no third region. */
  lemma FixedLeaseSingleLaunchIff(cfg: Config, c: Control, home: string, regions: seq<string>)
    requires Fixed(c) && c.pinned.None? && !c.terminal
    ensures (forall w :: RunStartsAtMostOne(w, cfg, Some(c), home, regions)) <==> |regions| <= 2
  {
    SingleLaunchIff(cfg, Some(c), home, regions);
  }
}

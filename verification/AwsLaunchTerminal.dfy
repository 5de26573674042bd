/** The whole of one region: which tries it makes, and whether a terminal rejection ends the search. */
module AwsLaunchTerminal {
  import opened Common
  import opened AwsErrors
  import opened AwsLaunch
  import opened AwsLaunchSafety
  import opened AwsLaunchTheorems

  function Min(a: nat, b: nat): nat {
    if a < b then a else b
  }

  /** The candidates in order, then in order those whose spot refusal allows on-demand; the tries stop
      before the end only at a success or at an error that is not retryable. */
  predicate FollowsPlan(tries: Log, candidates: seq<string>, cfg: Config) {
    var n := Min(|tries|, |candidates|);
    && InOrder(tries[..n], candidates, cfg.spot)
    && (|tries| > n ==>
          && cfg.onDemandFallback && (forall k | 0 <= k < n :: Passed(tries[k]))
          && InOrder(tries[n..], Fallbacks(tries[..n]), false))
    && (tries == [] || Passed(Last(tries)) ==>
          && n == |candidates|
          && (cfg.onDemandFallback ==> |tries| - n == |Fallbacks(tries[..n])|))
  }

  lemma NewTriesTrans(s: State, s1: State, s': State)
    requires TriesOf(s.log) <= TriesOf(s1.log) && TriesOf(s1.log) <= TriesOf(s'.log)
    ensures TriesOf(s.log) <= TriesOf(s'.log)
    ensures NewTries(s, s') == NewTries(s, s1) + NewTries(s1, s')
  {
    assert TriesOf(s'.log)[..|TriesOf(s1.log)|] == TriesOf(s1.log);
  }

  lemma OneSweepFollowsPlan(tries: Log, candidates: seq<string>, cfg: Config, scan: Scan)
    requires SweepResult(tries, candidates, cfg.spot, [], [], scan)
    requires scan.Stopped? || scan.fallback == [] || !cfg.onDemandFallback
    ensures FollowsPlan(tries, candidates, cfg)
  {
    assert tries[..|tries|] == tries;
  }

  lemma TwoSweepsFollowPlan(t1: Log, t2: Log, candidates: seq<string>, cfg: Config, first: Scan, second: Scan)
    requires first.Exhausted? && first.fallback != [] && cfg.onDemandFallback
    requires SweepResult(t1, candidates, cfg.spot, [], [], first)
    requires SweepResult(t2, first.fallback, false, first.errs, [], second)
    ensures FollowsPlan(t1 + t2, candidates, cfg)
  {
    assert t1 != [] by {
      assert t1 == [] ==> Fallbacks(t1) == [];
    }
    assert t2 != [] && (Passed(Last(t2)) ==> |t2| == |first.fallback|);
    JoinPlan(t1, t2, candidates, cfg);
  }

  lemma JoinPlan(t1: Log, t2: Log, candidates: seq<string>, cfg: Config)
    requires cfg.onDemandFallback && |t1| == |candidates| && t2 != []
    requires InOrder(t1, candidates, cfg.spot) && InOrder(t2, Fallbacks(t1), false)
    requires forall k | 0 <= k < |t1| :: Passed(t1[k])
    requires Passed(Last(t2)) ==> |t2| == |Fallbacks(t1)|
    ensures FollowsPlan(t1 + t2, candidates, cfg)
  {
    var all := t1 + t2;
    assert all[..|t1|] == t1 && all[|t1|..] == t2;
    assert Last(all) == Last(t2);
    assert forall k | 0 <= k < |t1| :: all[k] == t1[k];
  }

  lemma MarketsFollowPlan(w: World, cfg: Config, s: State, site: Site, candidates: seq<string>)
    ensures var (s', r) := SearchMarkets(w, cfg, s, site, candidates);
            TriesOf(s.log) <= TriesOf(s'.log) && FollowsPlan(NewTries(s, s'), candidates, cfg)
  {
    var (s1, first) := TryAll(w, cfg, s, site, candidates, cfg.spot, [], []);
    SweepFollowsCandidates(w, cfg, s, site, candidates, cfg.spot, [], []);
    if first.Exhausted? && first.fallback != [] && cfg.onDemandFallback {
      var (s2, second) := TryAll(w, cfg, s1, site, first.fallback, false, first.errs, []);
      SweepFollowsCandidates(w, cfg, s1, site, first.fallback, false, first.errs, []);
      NewTriesTrans(s, s1, s2);
      TwoSweepsFollowPlan(NewTries(s, s1), NewTries(s1, s2), candidates, cfg, first, second);
    } else {
      OneSweepFollowsPlan(NewTries(s, s1), candidates, cfg, first);
    }
  }

  lemma NoNewTry(log: Log, e: Event)
    requires !e.Tried?
    ensures TriesOf(log + [e]) == TriesOf(log)
  {
    Snoc(log, e);
  }

  lemma RollbackAddsNoTry(w: World, s: State, key: KeyBinding, e: Err)
    ensures TriesOf(Rollback(w, s, key, e).0.log) == TriesOf(s.log)
  {
    var deleted := KeyDeleted(key.id, w.deleteKey(s.log, key.id).None?);
    NoNewTry(s.log, deleted);
    if s.control.Some? && s.control.value.pinned.Some? {
      var a := s.control.value.pinned.value;
      NoNewTry(s.log, DefiniteCalled(a, w.definite(s.log, a).None?));
      NoNewTry(s.log + [deleted], DefiniteCalled(a, w.definite(s.log + [deleted], a).None?));
    }
  }

  /** Every region pass that gets as far as launching follows the plan, whatever EC2 answers. */
  lemma RegionFollowsPlan(w: World, cfg: Config, s: State, region: string)
    ensures var (s', r) := RegionPass(w, cfg, s, region);
            var candidates := w.candidates(s.log + [PassStarted(region)], region);
            && TriesOf(s.log) <= TriesOf(s'.log)
            && (NewTries(s, s') != [] ==> candidates.Ok? && FollowsPlan(NewTries(s, s'), candidates.value, cfg))
  {
    var s0 := s.(log := s.log + [PassStarted(region)]);
    NoNewTry(s.log, PassStarted(region));
    var candidates := w.candidates(s0.log, region);
    var key := EnsureKeyBinding(w, s0.log);
    if candidates.Ok? && key.Ok? {
      var bound := BindKey(s0, key.value);
      NoNewTry(s0.log, KeyBound(key.value));
      var image := w.staticImage(bound.log, region);
      var group := w.group(bound.log, region);
      if image.Ok? && group.Ok? {
        MarketsFollowPlan(w, cfg, bound, Site(region, image.value, group.value), candidates.value);
      }
      var (s1, r) := Provision(w, cfg, bound, region, candidates.value);
      if r.Failed? {
        RollbackAddsNoTry(w, s1, key.value, r.error);
      }
    }
  }

  // ----- what a terminal rejection does to the search -----

  lemma TerminalTry(w: World, cfg: Config, s: State, site: Site, serverType: string, spot: bool, failed: set<string>)
    requires Inv(s, failed) && !HasTerminal(s.log)
    ensures var (s', r) := TryCreate(w, cfg, s, site, serverType, spot);
            && Inv(s', failed) && (HasTerminal(s'.log) ==> r == Failed({}) && s'.control.value.pinned.Some?)
            && TriesOf(s'.log) == TriesOf(s.log) +
                                  [Tried(serverType, spot, if r.Ok? then None else Some(r.error))]
  {
    TryIsLogged(w, cfg, s, site, serverType, spot);
    TryCreateKeeps(w, cfg, s, site, serverType, spot, failed);
  }

  /** The sweep in which EC2 answers with a terminal code ends at that try, with an error that says nothing. */
  lemma {:induction false} TerminalStopsSweep(
    w: World, cfg: Config, s: State, site: Site, todo: seq<string>, spot: bool,
    errs: seq<Err>, fallback: seq<string>, failed: set<string>)
    requires Inv(s, failed) && !HasTerminal(s.log)
    ensures var (s', scan) := TryAll(w, cfg, s, site, todo, spot, errs, fallback);
            && TriesOf(s.log) <= TriesOf(s'.log)
            && (HasTerminal(s'.log) ==>
                  && scan.Stopped? && scan.result.Failed?
                  && s'.control.Some? && s'.control.value.pinned.Some? && EndsInSilence(NewTries(s, s')))
    decreases |todo|
  {
    if todo != [] {
      var (s1, r) := TryCreate(w, cfg, s, site, todo[0], spot);
      TerminalTry(w, cfg, s, site, todo[0], spot, failed);
      var e := Tried(todo[0], spot, if r.Ok? then None else Some(r.error));
      if r.Failed? && Retryable(r.error) {
        var fallback' := if spot && MarketFallback(r.error) then fallback + [todo[0]] else fallback;
        TerminalStopsSweep(w, cfg, s1, site, todo[1..], spot, errs + [r.error], fallback', failed);
        var (s', scan) := TryAll(w, cfg, s1, site, todo[1..], spot, errs + [r.error], fallback');
        SilenceAfter(s, s1, s', e);
      } else {
        SilenceNow(s, s1, e);
      }
    }
  }

  /** The last try failed with an error that says nothing. */
  predicate EndsInSilence(tries: Log) {
    tries != [] && Last(tries).Tried? && Last(tries).error == Some({})
  }

  lemma SilenceAfter(s: State, s1: State, s': State, e: Event)
    requires TriesOf(s1.log) == TriesOf(s.log) + [e] && TriesOf(s1.log) <= TriesOf(s'.log)
    ensures TriesOf(s.log) <= TriesOf(s'.log) && (EndsInSilence(NewTries(s1, s')) ==> EndsInSilence(NewTries(s, s')))
  {
    NewTriesCons(s, s1, s', e);
  }

  lemma SilenceNow(s: State, s1: State, e: Event)
    requires TriesOf(s1.log) == TriesOf(s.log) + [e]
    ensures TriesOf(s.log) <= TriesOf(s1.log)
    ensures e.Tried? && e.error == Some({}) ==> EndsInSilence(NewTries(s, s1))
  {
    NewTriesCons(s, s1, s1, e);
  }

  lemma ErrorsSnoc(errs: seq<Err>, tries: Log)
    requires forall k | 0 <= k < |tries| :: tries[k].Tried? && tries[k].error.Some?
    requires tries != []
    ensures errs + Errors(tries) == errs + Errors(Front(tries)) + [Last(tries).error.value]
  {
    assert Errors(tries) == Errors(Front(tries)) + [Last(tries).error.value];
  }

  lemma PassedErrors(tries: Log)
    requires forall k | 0 <= k < |tries| :: tries[k].Tried? && tries[k].error.Some? && Passed(tries[k])
    ensures |Errors(tries)| == |tries|
    ensures forall k | 0 <= k < |tries| :: Retryable(Errors(tries)[k])
  {
    assert forall k | 0 <= k < |tries| :: Errors(tries)[k] == tries[k].error.value && Passed(tries[k]);
  }

  /** Adding an error that says nothing to retryable ones leaves the join retryable, if there are any. */
  lemma JoinedIsRetryableIff(before: seq<Err>)
    requires forall k | 0 <= k < |before| :: Retryable(before[k])
    ensures RegionRetryable(Union(before + [{}])) <==> before != []
  {
    UnionSnoc(before, {});
    if before == [] {
      assert Union(before) == {};
    } else {
      UnionContains(before, 0);
      RetryableIsMonotone(before[0], Union(before));
      assert Union(before) + {} == Union(before);
    }
  }

  lemma JoinAfterTerminal(errs: seq<Err>, tries: Log)
    requires forall k | 0 <= k < |errs| :: Retryable(errs[k])
    requires forall k | 0 <= k < |tries| :: tries[k].Tried? && tries[k].error.Some?
    requires tries != [] && (forall k | 0 <= k < |tries| - 1 :: Passed(tries[k]))
    requires Last(tries).error == Some({})
    ensures RegionRetryable(Union(errs + Errors(tries))) <==> |errs| + |tries| >= 2
  {
    var passed := Errors(Front(tries));
    assert forall k | 0 <= k < |Front(tries)| :: Front(tries)[k] == tries[k];
    PassedErrors(Front(tries));
    ErrorsSnoc(errs, tries);
    JoinedIsRetryableIff(errs + passed);
  }

  /** The sweep's join after a terminal code, told by the number of tries. */
  lemma TerminalInSweep(w: World, cfg: Config, s: State, site: Site, todo: seq<string>, spot: bool,
                        errs: seq<Err>, failed: set<string>)
    requires Inv(s, failed) && !HasTerminal(s.log)
    requires forall k | 0 <= k < |errs| :: Retryable(errs[k])
    ensures var (s', scan) := TryAll(w, cfg, s, site, todo, spot, errs, []);
            TriesOf(s.log) <= TriesOf(s'.log) &&
            (HasTerminal(s'.log) ==>
              && scan.Stopped? && scan.result.Failed?
              && s'.control.Some? && s'.control.value.pinned.Some?
              && (RegionRetryable(scan.result.error) <==> |errs| + |NewTries(s, s')| >= 2))
  {
    SweepFollowsCandidates(w, cfg, s, site, todo, spot, errs, []);
    TerminalStopsSweep(w, cfg, s, site, todo, spot, errs, [], failed);
    var (s', scan) := TryAll(w, cfg, s, site, todo, spot, errs, []);
    if HasTerminal(s'.log) {
      JoinAfterTerminal(errs, NewTries(s, s'));
    }
  }

  lemma ExhaustedErrorsRetry(tries: Log, todo: seq<string>, spot: bool, scan: Scan)
    requires scan.Exhausted? && SweepResult(tries, todo, spot, [], [], scan)
    ensures |scan.errs| == |tries| && forall k | 0 <= k < |scan.errs| :: Retryable(scan.errs[k])
    ensures scan.fallback != [] ==> tries != []
  {
    PassedErrors(tries);
  }

  lemma TerminalInMarkets(w: World, cfg: Config, s: State, site: Site, candidates: seq<string>, failed: set<string>)
    requires Inv(s, failed) && !HasTerminal(s.log)
    ensures var (s', r) := SearchMarkets(w, cfg, s, site, candidates);
            TriesOf(s.log) <= TriesOf(s'.log) &&
            (HasTerminal(s'.log) ==>
              r.Failed? && s'.control.Some? && s'.control.value.pinned.Some? &&
              (RegionRetryable(r.error) <==> |NewTries(s, s')| >= 2))
  {
    var (s1, first) := TryAll(w, cfg, s, site, candidates, cfg.spot, [], []);
    TerminalInSweep(w, cfg, s, site, candidates, cfg.spot, [], failed);
    if first.Exhausted? && first.fallback != [] && cfg.onDemandFallback {
      SweepFollowsCandidates(w, cfg, s, site, candidates, cfg.spot, [], []);
      ExhaustedErrorsRetry(NewTries(s, s1), candidates, cfg.spot, first);
      TryAllKeeps(w, cfg, s, site, candidates, cfg.spot, [], [], failed);
      TerminalInSweep(w, cfg, s1, site, first.fallback, false, first.errs, failed);
      var (s2, second) := TryAll(w, cfg, s1, site, first.fallback, false, first.errs, []);
      NewTriesTrans(s, s1, s2);
    }
  }

  lemma TerminalInProvision(w: World, cfg: Config, s: State, region: string, candidates: seq<string>,
                            failed: set<string>)
    requires Inv(s, failed) && !HasTerminal(s.log)
    ensures var (s', r) := Provision(w, cfg, s, region, candidates);
            TriesOf(s.log) <= TriesOf(s'.log) &&
            (HasTerminal(s'.log) ==>
              r.Failed? && s'.control.Some? && s'.control.value.pinned.Some? &&
              (RegionRetryable(r.error) <==> |NewTries(s, s')| >= 2))
  {
    var image := w.staticImage(s.log, region);
    var group := w.group(s.log, region);
    if image.Ok? && group.Ok? {
      TerminalInMarkets(w, cfg, s, Site(region, image.value, group.value), candidates, failed);
    }
  }

  /** After a terminal rejection the next region is tried exactly when the rollback resolved the attempt
      and the rejected launch was not the first try of its region. */
  lemma TerminalRejectionLeavesRegionIff(w: World, cfg: Config, s: State, region: string, failed: set<string>)
    requires Inv(s, failed) && !HasTerminal(s.log)
    requires HasTerminal(RegionPass(w, cfg, s, region).0.log)
    ensures var (s', r) := RegionPass(w, cfg, s, region);
            && r.Failed? && s'.control.Some? && TriesOf(s.log) <= TriesOf(s'.log)
            && (ShouldRetryRegion(r.error, s'.control) <==>
                  s'.control.value.pinned.None? && |NewTries(s, s')| >= 2)
  {
    var s0 := s.(log := s.log + [PassStarted(region)]);
    Snoc(s.log, PassStarted(region));
    NoNewTry(s.log, PassStarted(region));
    var candidates := w.candidates(s0.log, region);
    var key := EnsureKeyBinding(w, s0.log);
    if candidates.Ok? && key.Ok? {
      var bound := BindKey(s0, key.value);
      assert Inv(s0, failed) && !HasTerminal(s0.log);
      Snoc(s0.log, KeyBound(key.value));
      NoNewTry(s0.log, KeyBound(key.value));
      assert Inv(bound, failed) && !HasTerminal(bound.log);
      ProvisionKeeps(w, cfg, bound, region, candidates.value, failed);
      TerminalInProvision(w, cfg, bound, region, candidates.value, failed);
      var (s1, r) := Provision(w, cfg, bound, region, candidates.value);
      if r.Failed? {
        RollbackAddsNoTry(w, s1, key.value, r.error);
        RollbackKeeps(w, s1, key.value, r.error, failed);
        RollbackAddsNoRun(w, s1, key.value, r.error);
      }
    }
  }

  lemma RollbackAddsNoRun(w: World, s: State, key: KeyBinding, e: Err)
    ensures HasTerminal(Rollback(w, s, key, e).0.log) == HasTerminal(s.log)
  {
    var deleted := KeyDeleted(key.id, w.deleteKey(s.log, key.id).None?);
    Snoc(s.log, deleted);
    if s.control.Some? && s.control.value.pinned.Some? {
      var a := s.control.value.pinned.value;
      Snoc(s.log, DefiniteCalled(a, w.definite(s.log, a).None?));
      Snoc(s.log + [deleted], DefiniteCalled(a, w.definite(s.log + [deleted], a).None?));
    }
  }

  /** With one candidate and no second market, a terminal rejection always ends the search. */
  lemma SingleTryStopsAtTerminal(w: World, cfg: Config, s: State, region: string, failed: set<string>)
    requires Inv(s, failed) && !HasTerminal(s.log)
    requires HasTerminal(RegionPass(w, cfg, s, region).0.log)
    requires var candidates := w.candidates(s.log + [PassStarted(region)], region);
             candidates.Ok? && |candidates.value| <= 1
    requires !cfg.spot || !cfg.onDemandFallback
    ensures var (s', r) := RegionPass(w, cfg, s, region);
            r.Failed? && !ShouldRetryRegion(r.error, s'.control)
  {
    TerminalRejectionLeavesRegionIff(w, cfg, s, region, failed);
    RegionFollowsPlan(w, cfg, s, region);
    var s' := RegionPass(w, cfg, s, region).0;
    if NewTries(s, s') != [] {
      PlanOfOne(NewTries(s, s'), w.candidates(s.log + [PassStarted(region)], region).value, cfg);
    }
  }

  lemma PlanOfOne(tries: Log, candidates: seq<string>, cfg: Config)
    requires FollowsPlan(tries, candidates, cfg) && |candidates| <= 1
    requires !cfg.spot || !cfg.onDemandFallback
    ensures |tries| <= 1
  {
    var first := tries[..Min(|tries|, |candidates|)];
    assert first != [] ==> Front(first) == [] && first[0].spot == cfg.spot;
    assert !cfg.spot ==> Fallbacks(first) == [];
  }

  /** Success without a launch happens exactly for an empty candidate list of a non-explicit type. */
  lemma SilentSuccessIff(w: World, cfg: Config, s: State, region: string)
    ensures var s0 := s.(log := s.log + [PassStarted(region)]);
            var candidates := w.candidates(s0.log, region);
            var key := EnsureKeyBinding(w, s0.log);
            RegionPass(w, cfg, s, region).1 == Ok(None) <==>
              && candidates == Ok([]) && key.Ok? && !cfg.typeExplicit
              && w.staticImage(BindKey(s0, key.value).log, region).Ok?
              && w.group(BindKey(s0, key.value).log, region).Ok?
  {
    var s0 := s.(log := s.log + [PassStarted(region)]);
    var candidates := w.candidates(s0.log, region);
    var key := EnsureKeyBinding(w, s0.log);
    if candidates.Ok? && key.Ok? && candidates.value != [] {
      var bound := BindKey(s0, key.value);
      var image := w.staticImage(bound.log, region);
      var group := w.group(bound.log, region);
      if image.Ok? && group.Ok? {
        var site := Site(region, image.value, group.value);
        SweepFollowsCandidates(w, cfg, bound, site, candidates.value, cfg.spot, [], []);
        var (s1, first) := TryAll(w, cfg, bound, site, candidates.value, cfg.spot, [], []);
        if first.Exhausted? {
          PassedErrors(NewTries(bound, s1));
          SweepFollowsCandidates(w, cfg, s1, site, first.fallback, false, first.errs, []);
        }
      }
    }
  }
}

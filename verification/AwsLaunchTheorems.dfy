/** The launch search: safety read event by event, the order of tries, and what a terminal rejection stops. */
module AwsLaunchTheorems {
  import opened Common
  import opened AwsErrors
  import opened AwsLaunch
  import opened AwsLaunchSafety

  // ----- safety, event by event -----

  lemma {:induction false} LegalAt(log: Log, failed: set<string>, i: nat)
    requires Legal(log, failed) && i < |log|
    ensures StepLegal(log[..i], log[i], failed)
  {
    if i < |log| - 1 {
      LegalAt(Front(log), failed, i);
      assert Front(log)[..i] == log[..i];
    }
  }

  lemma {:induction false} JustifiedAt(log: Log, i: nat)
    requires Justified(log) && i < |log|
    ensures PastTerminal(log[..i]) || StepJustified(log[..i], log[i])
  {
    if i < |log| - 1 {
      JustifiedAt(Front(log), i);
      assert Front(log)[..i] == log[..i];
    }
  }

  lemma {:induction false} PastTerminalStays(log: Log, i: nat)
    requires i <= |log|
    ensures PastTerminal(log[..i]) ==> PastTerminal(log)
  {
    if i == |log| {
      assert log[..i] == log;
    } else {
      assert Front(log)[..i] == log[..i];
      PastTerminalStays(Front(log), i);
    }
  }

  /** Each request was recorded just before it was sent, is not a known failure, and was sent while
      nothing else was unresolved. */
  predicate SentSafely(log: Log, i: nat, failed: set<string>)
    requires i < |log|
  {
    log[i].Ran? ==>
      && i > 0 && log[i - 1] == BeforeCalled(log[i].attempt, true)
      && log[i].attempt.token !in failed + Recorded(log[..i - 1])
      && Unresolved(log[..i - 1]).None?
  }

  lemma SentSafelyAt(log: Log, failed: set<string>, i: nat)
    requires Legal(log, failed) && i < |log|
    ensures SentSafely(log, i, failed)
  {
    LegalAt(log, failed, i);
    if log[i].Ran? {
      assert Last(log[..i]) == log[i - 1];
      LegalAt(log, failed, i - 1);
    }
  }

  /** The invariant at the end of every run of a fixed lease. */
  lemma RunKeeps(w: World, cfg: Config, c: Control, home: string, regions: seq<string>)
    requires Fixed(c) && c.pinned.None? && !c.terminal
    ensures var (s, r) := CreateServerWithFallback(w, cfg, State([], Some(c)), home, regions);
            Inv(s, c.failedTokens) && (r.Ok? && r.value.Some? ==> Success(s, r.value.value))
  {
    var s := State([], Some(c));
    if |regions| > 1 {
      SearchRegionsKeeps(w, cfg, s, home, regions, [], c.failedTokens);
    } else {
      RegionPassKeeps(w, cfg, s, cfg.region, c.failedTokens);
    }
  }

  /** Every run of a fixed lease: requests are sent safely, across all regions, types and markets;
      failures are recorded and keys deleted only on EC2's word while the search has not moved past
      a terminal rejection; and the control ends up naming exactly the unresolved attempt. */
  lemma FixedLeaseRunIsSafe(w: World, cfg: Config, c: Control, home: string, regions: seq<string>)
    requires Fixed(c) && c.pinned.None? && !c.terminal
    ensures var (s, r) := CreateServerWithFallback(w, cfg, State([], Some(c)), home, regions);
            && (forall i | 0 <= i < |s.log| :: SentSafely(s.log, i, c.failedTokens))
            && (forall i | 0 <= i < |s.log| ::
                  PastTerminal(s.log[..i]) || StepJustified(s.log[..i], s.log[i]))
            && s.control.Some? && s.control.value.pinned == Unresolved(s.log)
            && (r.Ok? && r.value.Some? ==> Success(s, r.value.value))
  {
    RunKeeps(w, cfg, c, home, regions);
    var (s, r) := CreateServerWithFallback(w, cfg, State([], Some(c)), home, regions);
    forall i | 0 <= i < |s.log|
      ensures SentSafely(s.log, i, c.failedTokens)
      ensures PastTerminal(s.log[..i]) || StepJustified(s.log[..i], s.log[i])
    {
      SentSafelyAt(s.log, c.failedTokens, i);
      JustifiedAt(s.log, i);
    }
  }

  /** Between a launch and the next recorded attempt, the launch was definitely rejected or is still
      the unresolved one. */
  lemma {:induction false} OpenUntilRejected(log: Log, failed: set<string>, i: nat, k: nat)
    requires Legal(log, failed) && Justified(log) && i < k <= |log| && log[i].Ran?
    requires !PastTerminal(log[..k])
    ensures DefinitelyRejected(log[i].outcome) ||
            (Unresolved(log[..k]) == Some(log[i].attempt) && LastRun(log[..k]) == Some(log[i]))
    decreases k
  {
    var upTo := log[..k];
    assert Front(upTo) == log[..k - 1] && Last(upTo) == log[k - 1];
    LegalAt(log, failed, k - 1);
    if k == i + 1 {
      assert Last(log[..i]) == log[i - 1];
      assert Unresolved(log[..i]) == Some(log[i].attempt);
    } else {
      OpenUntilRejected(log, failed, i, k - 1);
      JustifiedAt(log, k - 1);
      if log[k - 1].Ran? {
        assert Last(log[..k - 1]) == log[k - 2];
        assert Front(log[..k - 1]) == log[..k - 2];
        LegalAt(log, failed, k - 2);
        if k - 2 > i {
          OpenUntilRejected(log, failed, i, k - 2);
        }
      }
    }
  }

  /** No double launch: as long as the search has not moved past a terminal rejection, every request
      but the last was definitely rejected, so at most one can have started an instance. */
  lemma NoDoubleLaunch(log: Log, failed: set<string>, i: nat, j: nat)
    requires Legal(log, failed) && Justified(log)
    requires i < j < |log| && log[i].Ran? && log[j].Ran? && !PastTerminal(log[..j])
    ensures DefinitelyRejected(log[i].outcome)
  {
    SentSafelyAt(log, failed, j);
    assert log[..j][..j - 1] == log[..j - 1];
    PastTerminalStays(log[..j], j - 1);
    OpenUntilRejected(log, failed, i, j - 1);
  }

  // ----- the order of tries -----

  function TriesOf(log: Log): Log {
    if log == [] then []
    else TriesOf(Front(log)) + (if Last(log).Tried? then [Last(log)] else [])
  }

  function NewTries(s: State, s': State): Log
    requires TriesOf(s.log) <= TriesOf(s'.log)
  {
    TriesOf(s'.log)[|TriesOf(s.log)|..]
  }

  /** A try that failed and lets the next candidate be tried. */
  predicate Passed(e: Event) {
    e.Tried? && e.error.Some? && Retryable(e.error.value)
  }

  function Errors(tries: Log): seq<Err>
    requires forall k | 0 <= k < |tries| :: tries[k].Tried? && tries[k].error.Some?
  {
    seq(|tries|, k requires 0 <= k < |tries| && tries[k].Tried? && tries[k].error.Some? => tries[k].error.value)
  }

  /** The candidates whose spot refusal allows the on-demand market. */
  function Fallbacks(tries: Log): seq<string> {
    if tries == [] then []
    else
      var e := tries[0];
      (if e.Tried? && e.spot && e.error.Some? && MarketFallback(e.error.value) then [e.serverType] else []) +
      Fallbacks(tries[1..])
  }

  predicate InOrder(tries: Log, types: seq<string>, spot: bool) {
    && |tries| <= |types|
    && (forall k | 0 <= k < |tries| :: tries[k].Tried? && tries[k].serverType == types[k] && tries[k].spot == spot)
    && (forall k | 0 <= k < |tries| - 1 :: Passed(tries[k]))
  }

  lemma AdmitAddsNoTry(w: World, s: State, a: Attempt)
    ensures TriesOf(Admit(w, s, a).0.log) == TriesOf(s.log)
  {
    Snoc(s.log, BeforeCalled(a, w.before(s.log, a).None?));
  }

  lemma SendAddsNoTry(w: World, s: State, a: Attempt)
    ensures TriesOf(Send(w, s, a).0.log) == TriesOf(s.log)
  {
    var o := w.run(s.log, a);
    Snoc(s.log, Ran(a, o));
    var sent := s.log + [Ran(a, o)];
    assert TriesOf(sent) == TriesOf(s.log);
    Snoc(sent, DefiniteCalled(a, w.definite(sent, a).None?));
  }

  lemma LaunchAddsNoTry(w: World, cfg: Config, s: State, region: string, serverType: string,
                        spot: bool, imageID: string, groupID: string)
    ensures TriesOf(CreateServer(w, cfg, s, region, serverType, spot, imageID, groupID).0.log) == TriesOf(s.log)
  {
    var a := MakeAttempt(w, cfg, s, region, serverType, spot, imageID, groupID);
    AdmitAddsNoTry(w, s, a);
    SendAddsNoTry(w, Admit(w, s, a).0, a);
  }

  lemma TryIsLogged(w: World, cfg: Config, s: State, site: Site, serverType: string, spot: bool)
    ensures var (s', r) := TryCreate(w, cfg, s, site, serverType, spot);
            TriesOf(s'.log) == TriesOf(s.log) +
                               [Tried(serverType, spot, if r.Ok? then None else Some(r.error))]
  {
    var resolved := if site.image.Some? then Ok(site.image.value)
                    else w.image(s.log, site.region, serverType);
    var (s1, r) := if resolved.Failed? then (s, Failed(resolved.error)) else
                     CreateServer(w, cfg, s, site.region, serverType, spot, resolved.value, site.groupID);
    if resolved.Ok? {
      LaunchAddsNoTry(w, cfg, s, site.region, serverType, spot, resolved.value, site.groupID);
    }
    Snoc(s1.log, Tried(serverType, spot, if r.Ok? then None else Some(r.error)));
  }

  lemma ErrorsCons(e: Event, tries: Log)
    requires forall k | 0 <= k < |tries| :: tries[k].Tried? && tries[k].error.Some?
    requires e.Tried? && e.error.Some?
    ensures Errors([e] + tries) == [e.error.value] + Errors(tries)
  {
  }

  lemma FallbacksCons(e: Event, tries: Log)
    ensures Fallbacks([e] + tries) == Fallbacks([e]) + Fallbacks(tries)
  {
    assert [e][1..] == [] && ([e] + tries)[1..] == tries;
  }

  /** What one market's sweep did, told by its tries alone. */
  predicate SweepResult(tries: Log, todo: seq<string>, spot: bool, errs: seq<Err>,
                        fallback: seq<string>, scan: Scan)
  {
    && InOrder(tries, todo, spot)
    && match scan
       case Exhausted(errs', fallback') =>
         && |tries| == |todo| && (forall k | 0 <= k < |tries| :: Passed(tries[k]))
         && errs' == errs + Errors(tries) && fallback' == fallback + Fallbacks(tries)
       case Stopped(Ok(_)) => tries != [] && Last(tries).error.None?
       case Stopped(Failed(e)) =>
         && tries != [] && Last(tries).error.Some? && !Retryable(Last(tries).error.value)
         && e == Union(errs + Errors(tries))
  }

  lemma InOrderCons(e: Event, rest: Log, todo: seq<string>, spot: bool)
    requires todo != [] && InOrder(rest, todo[1..], spot)
    requires Passed(e) && e.serverType == todo[0] && e.spot == spot
    ensures InOrder([e] + rest, todo, spot)
  {
    var all := [e] + rest;
    forall k | 0 <= k < |all|
      ensures all[k].Tried? && all[k].serverType == todo[k] && all[k].spot == spot
      ensures k < |all| - 1 ==> Passed(all[k])
    {
      if k > 0 {
        assert all[k] == rest[k - 1] && todo[k] == todo[1..][k - 1];
      }
    }
  }

  lemma SweepResultCons(e: Event, rest: Log, todo: seq<string>, spot: bool, errs: seq<Err>,
                        fallback: seq<string>, scan: Scan)
    requires todo != [] && Passed(e) && e.serverType == todo[0] && e.spot == spot
    requires SweepResult(rest, todo[1..], spot, errs + [e.error.value], fallback + Fallbacks([e]), scan)
    ensures SweepResult([e] + rest, todo, spot, errs, fallback, scan)
  {
    InOrderCons(e, rest, todo, spot);
    FallbacksCons(e, rest);
    assert fallback + Fallbacks([e]) + Fallbacks(rest) == fallback + Fallbacks([e] + rest);
    assert rest != [] ==> Last([e] + rest) == Last(rest);
    if scan.Exhausted? || scan.result.Failed? {
      assert forall k | 0 <= k < |rest| :: rest[k].Tried? && rest[k].error.Some?;
      ErrorsCons(e, rest);
      assert errs + [e.error.value] + Errors(rest) == errs + Errors([e] + rest);
    }
  }

  lemma SweepResultStop(e: Event, todo: seq<string>, spot: bool, errs: seq<Err>,
                        fallback: seq<string>, r: Reply<Attempt, Err>)
    requires todo != [] && r.Failed? ==> !Retryable(r.error)
    requires todo != [] && e == Tried(todo[0], spot, if r.Ok? then None else Some(r.error))
    ensures SweepResult([e], todo, spot, errs, fallback,
                        Stopped(if r.Ok? then r else Failed(Union(errs + [r.error]))))
  {
    assert Front([e]) == [];
  }

  lemma NewTriesCons(s: State, s1: State, s': State, e: Event)
    requires TriesOf(s1.log) == TriesOf(s.log) + [e] && TriesOf(s1.log) <= TriesOf(s'.log)
    ensures TriesOf(s.log) <= TriesOf(s'.log)
    ensures NewTries(s, s') == [e] + NewTries(s1, s')
  {
    var all, mid := TriesOf(s'.log), TriesOf(s1.log);
    assert all[..|mid|] == mid;
    assert mid[|mid| - 1] == e;
  }

  lemma SweepResultNone(s: State, spot: bool, errs: seq<Err>, fallback: seq<string>)
    ensures SweepResult(NewTries(s, s), [], spot, errs, fallback, Exhausted(errs, fallback))
  {
    assert NewTries(s, s) == [] && errs + [] == errs && fallback + [] == fallback;
  }

  /** The try is a market fallback exactly if the loop notes it as one. */
  lemma FallbackOf(serverType: string, spot: bool, error: Err, fallback: seq<string>)
    ensures fallback + Fallbacks([Tried(serverType, spot, Some(error))]) ==
            if spot && MarketFallback(error) then fallback + [serverType] else fallback
  {
    assert [Tried(serverType, spot, Some(error))][1..] == [];
  }

  lemma {:induction false} SweepFollowsCandidates(
    w: World, cfg: Config, s: State, site: Site, todo: seq<string>, spot: bool,
    errs: seq<Err>, fallback: seq<string>)
    ensures var (s', scan) := TryAll(w, cfg, s, site, todo, spot, errs, fallback);
            && TriesOf(s.log) <= TriesOf(s'.log)
            && SweepResult(NewTries(s, s'), todo, spot, errs, fallback, scan)
    decreases |todo|
  {
    if todo == [] {
      SweepResultNone(s, spot, errs, fallback);
    } else {
      var (s1, r) := TryCreate(w, cfg, s, site, todo[0], spot);
      TryIsLogged(w, cfg, s, site, todo[0], spot);
      var e := Tried(todo[0], spot, if r.Ok? then None else Some(r.error));
      if r.Failed? && Retryable(r.error) {
        var fallback' := if spot && MarketFallback(r.error) then fallback + [todo[0]] else fallback;
        FallbackOf(todo[0], spot, r.error, fallback);
        SweepFollowsCandidates(w, cfg, s1, site, todo[1..], spot, errs + [r.error], fallback');
        var (s', scan) := TryAll(w, cfg, s1, site, todo[1..], spot, errs + [r.error], fallback');
        NewTriesCons(s, s1, s', e);
        SweepResultCons(e, NewTries(s1, s'), todo, spot, errs, fallback, scan);
      } else {
        NewTriesCons(s, s1, s1, e);
        assert NewTries(s1, s1) == [];
        assert [e] + [] == [e];
        SweepResultStop(e, todo, spot, errs, fallback, r);
      }
    }
  }
}

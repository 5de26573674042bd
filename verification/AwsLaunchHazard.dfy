/**
  The terminal flag of one region is read in the next: for every configuration, a world in which an attempt of
  unknown outcome is written off; hence exactly when the search records failures and deletes keys only on
  EC2's word.
 */
module AwsLaunchHazard {
  import opened Common
  import opened AwsErrors
  import opened AwsLaunch
  import opened AwsLaunchSafety
  import opened AwsLaunchPass
  import opened AwsLaunchWorld

  // ----- a pass under the flag -----

  /** From the n-th pass on every answer is lost; before that "small" is refused for capacity and "medium" with a
      terminal code. */
  function LostFrom(n: nat): Plan {
    (pass, serverType) => if pass >= n then Lost else if serverType == "small" then Capacity else Terminal
  }

  /** The control pins the attempts it records, and none is pinned. */
  predicate Open(s: State, pad: nat) {
    s.control.Some? && s.control.value.hasBefore && Fresh(s, pad)
  }

  function Victim(n: nat, pad: nat, cfg: Config, s: State, region: string): Attempt {
    TheAttempt(pad, LostFrom(n), cfg, Entered(s, region), SiteOf(s, region), "small")
  }

  /** What a pass entered under the flag does to an attempt whose answer was lost. */
  function Aftermath(s: State, region: string, a: Attempt): Log {
    s.log + [PassStarted(region)] + [KeyBound(Key)] + [BeforeCalled(a, true)] + [Ran(a, Lost)]
          + [Tried(a.serverType, a.spot, Some({}))]
  }

  lemma FlaggedRollback(w: World, s: State, a: Attempt, e: Err)
    requires s.control.Some? && s.control.value.terminal && s.control.value.pinned == Some(a)
    requires w.deleteKey(s.log, "key").None? && w.definite(s.log + [KeyDeleted("key", true)], a).None?
    ensures var (s', e') := Rollback(w, s, Key, e);
            && e' == e
            && s'.log == s.log + [KeyDeleted("key", true)] +
                         (if s.control.value.hasDefinite then [DefiniteCalled(a, true)] else [])
            && (s.control.value.hasDefinite ==> s'.control == Some(s.control.value.(pinned := None)))
  {
  }

  lemma LostTry(s: State, region: string, a: Attempt)
    requires s.control.Some? && s.control.value.hasBefore
    ensures var swept := Tries(Entered(s, region), a, Lost);
            && swept.log == Aftermath(s, region, a)
            && swept.control == Some(s.control.value.(keyPairID := "key", pinned := Some(a)))
  {
    Codes();
  }

  lemma FlaggedPass(n: nat, pad: nat, cfg: Config, s: State, region: string)
    requires Open(s, pad) && s.control.value.terminal && Passes(s.log) + 1 >= n
    ensures var a := Victim(n, pad, cfg, s, region);
            var (s', r) := RegionPass(Planned(pad, LostFrom(n)), cfg, s, region);
            && r == Failed({})
            && s'.log == Aftermath(s, region, a) + [KeyDeleted("key", true)] +
                         (if s.control.value.hasDefinite then [DefiniteCalled(a, true)] else [])
  {
    var a := Victim(n, pad, cfg, s, region);
    var bound, site := Entered(s, region), SiteOf(s, region);
    Codes();
    EnteredFacts(s, region);
    StopsAtSmall(pad, LostFrom(n), cfg, bound, site, Lost);
    var swept := Tries(bound, a, Lost);
    LostTry(s, region, a);
    PassIs(pad, LostFrom(n), cfg, s, region, swept, {});
    FlaggedRollback(Planned(pad, LostFrom(n)), swept, a, {});
  }

  /** Neither deleting the key nor recording a failure was justified. */
  lemma WrittenOff(s: State, region: string, a: Attempt)
    ensures var past := Aftermath(s, region, a);
            && !StepJustified(past, KeyDeleted("key", true))
            && !StepJustified(past + [KeyDeleted("key", true)], DefiniteCalled(a, true))
  {
    Codes();
    var sent := s.log + [PassStarted(region)] + [KeyBound(Key)] + [BeforeCalled(a, true)];
    var ran := sent + [Ran(a, Lost)];
    var past := Aftermath(s, region, a);
    Snoc(s.log + [PassStarted(region)] + [KeyBound(Key)], BeforeCalled(a, true));
    Snoc(sent, Ran(a, Lost));
    assert Unresolved(ran) == Some(a) && LastRun(ran) == Some(Ran(a, Lost));
    Snoc(ran, Tried(a.serverType, a.spot, Some({})));
    assert Unresolved(past) == Some(a) && LastRun(past) == LastRun(ran);
    Snoc(past, KeyDeleted("key", true));
    assert LastRun(past + [KeyDeleted("key", true)]) == LastRun(past);
  }

  // ----- how the flag gets into another region -----

  /** A region in which "medium" is refused with a terminal code ends resolved, with the flag up and an error that
      sends the search on. */
  lemma TerminalPass(pad: nat, plan: Plan, cfg: Config, s: State, region: string)
    requires Open(s, pad) && s.control.value.hasDefinite && !s.control.value.terminal
    requires plan(Passes(s.log) + 1, "small") == Capacity && plan(Passes(s.log) + 1, "medium") == Terminal
    ensures var (s', r) := RegionPass(Planned(pad, plan), cfg, s, region);
            && Open(s', pad) && s'.control.value.hasDefinite && s'.control.value.terminal
            && Passes(s'.log) == Passes(s.log) + 1
            && r.Failed? && ShouldRetryRegion(r.error, s'.control)
  {
    Codes();
    var bound, site := Entered(s, region), SiteOf(s, region);
    var a1 := TheAttempt(pad, plan, cfg, bound, site, "small");
    var s1 := Tries(bound, a1, Capacity);
    var a2 := TheAttempt(pad, plan, cfg, s1, site, "medium");
    var swept := Tries(s1, a2, Terminal);
    TwoTriesPass(pad, plan, cfg, s, region, Terminal);
    EnteredFacts(s, region);
    TryFacts(bound, a1, Capacity);
    TryFacts(s1, a2, Terminal);
    FlaggedRollback(Planned(pad, plan), swept, a2, {InsufficientInstanceCapacity});
    QuietEnd(swept.log, a2);
  }

  lemma QuietEnd(log: Log, a: Attempt)
    ensures Passes(log + [KeyDeleted("key", true)] + [DefiniteCalled(a, true)]) == Passes(log)
  {
    Snoc(log, KeyDeleted("key", true));
    assert Passes(log + [KeyDeleted("key", true)]) == Passes(log);
    Snoc(log + [KeyDeleted("key", true)], DefiniteCalled(a, true));
  }

  // ----- exactly when -----

  lemma {:induction false} UnjustifiedStays(log: Log, e: Event, more: Log)
    requires !StepJustified(log, e)
    ensures !JustifiedSince(log + [e] + more, 0)
    decreases |more|
  {
    var all := log + [e] + more;
    if more == [] {
      assert all == log + [e];
      Snoc(log, e);
    } else {
      UnjustifiedStays(log, e, Front(more));
      assert Front(all) == log + [e] + Front(more);
    }
  }

  lemma FlaggedPassIsUnjustified(n: nat, pad: nat, cfg: Config, s: State, region: string)
    requires Open(s, pad) && s.control.value.terminal && Passes(s.log) + 1 >= n
    ensures var (s', r) := RegionPass(Planned(pad, LostFrom(n)), cfg, s, region);
            !JustifiedSince(s'.log, 0) && r.Failed? && !ShouldRetryRegion(r.error, s'.control)
  {
    var a := Victim(n, pad, cfg, s, region);
    FlaggedPass(n, pad, cfg, s, region);
    WrittenOff(s, region, a);
    UnjustifiedStays(Aftermath(s, region, a), KeyDeleted("key", true),
                     if s.control.value.hasDefinite then [DefiniteCalled(a, true)] else []);
  }

  /** For every configuration, home and list of two regions or more, and every control that can pin and clear:
      a run that deletes the key of an attempt of unknown outcome and records it as failed. */
  lemma UnknownLaunchIsWrittenOff(cfg: Config, c: Control, home: string, regions: seq<string>) returns (w: World)
    requires c.pinned.None? && c.hasBefore && c.hasDefinite && !c.terminal && |regions| > 1
    ensures !RunIsJustified(w, cfg, Some(c), home, regions)
    ensures var log := CreateServerWithFallback(w, cfg, State([], Some(c)), home, regions).0.log;
            |log| > 2 && Last(log).DefiniteCalled? && !StepJustified(Front(log), Last(log))
  {
    var pad := PadExists(c.failedTokens);
    w := Planned(pad, LostFrom(2));
    var s0 := State([], Some(c));
    TerminalPass(pad, LostFrom(2), cfg, s0, regions[0]);
    var (s1, r1) := RegionPass(w, cfg, s0, regions[0]);
    FlaggedPassIsUnjustified(2, pad, cfg, s1, regions[1]);
    var (s2, r2) := RegionPass(w, cfg, s1, regions[1]);
    var none: seq<Err> := [];
    var rest := regions[1..];
    assert rest[0] == regions[1];
    assert SearchRegions(w, cfg, s1, home, rest, none + [r1.error]).0 == s2;
    assert SearchRegions(w, cfg, s0, home, regions, none).0 == s2;
    JustifiedSinceIff(s2.log);
    LastIsRecorded(2, pad, cfg, s1, regions[1]);
  }

  lemma LastIsRecorded(n: nat, pad: nat, cfg: Config, s: State, region: string)
    requires Open(s, pad) && s.control.value.terminal && s.control.value.hasDefinite && Passes(s.log) + 1 >= n
    ensures var log := RegionPass(Planned(pad, LostFrom(n)), cfg, s, region).0.log;
            |log| > 2 && Last(log).DefiniteCalled? && !StepJustified(Front(log), Last(log))
  {
    var a := Victim(n, pad, cfg, s, region);
    FlaggedPass(n, pad, cfg, s, region);
    WrittenOff(s, region, a);
    Snoc(Aftermath(s, region, a) + [KeyDeleted("key", true)], DefiniteCalled(a, true));
  }

  /** The same at once if the flag is already up when the call is made. */
  lemma StaleFlagIsRead(cfg: Config, c: Control, home: string, regions: seq<string>) returns (w: World)
    requires c.pinned.None? && c.hasBefore && c.terminal
    ensures !RunIsJustified(w, cfg, Some(c), home, regions)
  {
    var pad := PadExists(c.failedTokens);
    w := Planned(pad, LostFrom(1));
    var s0 := State([], Some(c));
    var region := if |regions| > 1 then regions[0] else cfg.region;
    FlaggedPassIsUnjustified(1, pad, cfg, s0, region);
    if |regions| > 1 {
      assert SearchRegions(w, cfg, s0, home, regions, []).0 == RegionPass(w, cfg, s0, region).0;
    }
    JustifiedSinceIff(RegionPass(w, cfg, s0, region).0.log);
  }

  /** For every configuration, control, home and list of regions: in every world failures are recorded and keys
      deleted only on EC2's word, if and only if the call is entered without a control that can pin an attempt,
      or with the flag down and either no way to clear an attempt or a single region. */
  lemma JustifiedIff(cfg: Config, control: Option<Control>, home: string, regions: seq<string>)
    ensures (forall w :: RunIsJustified(w, cfg, control, home, regions)) <==> EntryIsSafe(control, regions)
  {
    if EntryIsSafe(control, regions) {
      forall w
        ensures RunIsJustified(w, cfg, control, home, regions)
      {
        SafeEntryIsJustified(w, cfg, control, home, regions);
      }
    } else if control.value.terminal {
      var w := StaleFlagIsRead(cfg, control.value, home, regions);
    } else {
      var w := UnknownLaunchIsWrittenOff(cfg, control.value, home, regions);
    }
  }

  /** For a fixed lease: exactly when there is no second region. */
  lemma FixedLeaseJustifiedIff(cfg: Config, c: Control, home: string, regions: seq<string>)
    requires Fixed(c) && c.pinned.None? && !c.terminal
    ensures (forall w :: RunIsJustified(w, cfg, Some(c), home, regions)) <==> |regions| <= 1
  {
    JustifiedIff(cfg, Some(c), home, regions);
  }
}

/**
  The launch search with the callback of the AWS backend, which refuses every attempt once a terminal rejection has
  been recorded and the lease is released with it: the flag left from one region does no harm in the next.
 */
module AwsLaunchRelease {
  import opened Common
  import opened AwsErrors
  import opened AwsLaunch
  import opened AwsLaunchSafety
  import opened AwsLaunchPass
  import opened AwsLaunchSingle

  /** A failure was recorded after a terminal rejection, which releases the lease. */
  predicate Released(log: Log) {
    log != [] && ((Last(log).DefiniteCalled? && Last(log).ok && HasTerminal(Front(log))) || Released(Front(log)))
  }

  /** No attempt is admitted for a released lease. */
  ghost predicate Guards(w: World) {
    forall log, a | Released(log) :: w.before(log, a).Some?
  }

  lemma {:induction false} TerminalIsPinnedOrReleased(log: Log, failed: set<string>)
    requires Legal(log, failed) && HasTerminal(log)
    ensures Unresolved(log).Some? || Released(log)
  {
    if HasTerminal(Front(log)) {
      TerminalIsPinnedOrReleased(Front(log), failed);
    } else {
      assert Last(Front(log)) == BeforeCalled(Last(log).attempt, true);
    }
  }

  // ----- a released lease -----

  /** The lease is released, nothing is pinned, and so far all was well. */
  predicate Over(s: State) {
    && s.control.Some? && Fixed(s.control.value) && s.control.value.pinned.None?
    && Released(s.log) && Unresolved(s.log).None? && JustifiedSince(s.log, 0) && OnlyLastOpen(s.log)
  }

  /** Nothing that can still happen changes that. */
  lemma StaysOver(s: State, e: Event, keyPairID: string)
    requires Over(s) && !e.Ran? && !e.DefiniteCalled? && (e.BeforeCalled? ==> !e.ok)
    ensures Over(State(s.log + [e], s.control))
    ensures Over(State(s.log + [e], Some(s.control.value.(keyPairID := keyPairID))))
  {
    Snoc(s.log, e);
    Quiet(s.log, e);
  }

  lemma CreateServerStaysOver(w: World, cfg: Config, s: State, region: string, serverType: string, spot: bool,
                              imageID: string, groupID: string)
    requires Guards(w) && Over(s)
    ensures var (s', r) := CreateServer(w, cfg, s, region, serverType, spot, imageID, groupID);
            Over(s') && r.Failed?
  {
    var a := MakeAttempt(w, cfg, s, region, serverType, spot, imageID, groupID);
    assert w.before(s.log, a).Some?;
    StaysOver(s, BeforeCalled(a, false), "");
  }

  lemma TryCreateStaysOver(w: World, cfg: Config, s: State, site: Site, serverType: string, spot: bool)
    requires Guards(w) && Over(s)
    ensures var (s', r) := TryCreate(w, cfg, s, site, serverType, spot); Over(s') && r.Failed?
  {
    var resolved := if site.image.Some? then Ok(site.image.value)
                    else w.image(s.log, site.region, serverType);
    if resolved.Ok? {
      CreateServerStaysOver(w, cfg, s, site.region, serverType, spot, resolved.value, site.groupID);
      var (s1, r) := CreateServer(w, cfg, s, site.region, serverType, spot, resolved.value, site.groupID);
      StaysOver(s1, Tried(serverType, spot, Some(r.error)), "");
    } else {
      StaysOver(s, Tried(serverType, spot, Some(resolved.error)), "");
    }
  }

  lemma {:induction false} TryAllStaysOver(w: World, cfg: Config, s: State, site: Site, todo: seq<string>, spot: bool,
                                           errs: seq<Err>, fallback: seq<string>)
    requires Guards(w) && Over(s)
    ensures Over(TryAll(w, cfg, s, site, todo, spot, errs, fallback).0)
    decreases |todo|
  {
    if todo != [] {
      TryCreateStaysOver(w, cfg, s, site, todo[0], spot);
      var (s1, r) := TryCreate(w, cfg, s, site, todo[0], spot);
      var fallback' := if spot && MarketFallback(r.error) then fallback + [todo[0]] else fallback;
      TryAllStaysOver(w, cfg, s1, site, todo[1..], spot, errs + [r.error], fallback');
    }
  }

  lemma ProvisionStaysOver(w: World, cfg: Config, s: State, region: string, candidates: seq<string>)
    requires Guards(w) && Over(s)
    ensures Over(Provision(w, cfg, s, region, candidates).0)
  {
    var image := w.staticImage(s.log, region);
    var group := w.group(s.log, region);
    if image.Ok? && group.Ok? {
      var site := Site(region, image.value, group.value);
      TryAllStaysOver(w, cfg, s, site, candidates, cfg.spot, [], []);
      var (s1, first) := TryAll(w, cfg, s, site, candidates, cfg.spot, [], []);
      if first.Exhausted? {
        TryAllStaysOver(w, cfg, s1, site, first.fallback, false, first.errs, []);
      }
    }
  }

  /** A pass for a released lease sends nothing and harms nothing. */
  lemma PassStaysOver(w: World, cfg: Config, s: State, region: string)
    requires Guards(w) && Over(s)
    ensures Over(RegionPass(w, cfg, s, region).0)
  {
    var s0 := s.(log := s.log + [PassStarted(region)]);
    StaysOver(s, PassStarted(region), "");
    var candidates := w.candidates(s0.log, region);
    var key := EnsureKeyBinding(w, s0.log);
    if candidates.Ok? && key.Ok? {
      StaysOver(s0, KeyBound(key.value), key.value.id);
      var bound := BindKey(s0, key.value);
      ProvisionStaysOver(w, cfg, bound, region, candidates.value);
      var (s1, r) := Provision(w, cfg, bound, region, candidates.value);
      StaysOver(s1, KeyDeleted(key.value.id, w.deleteKey(s1.log, key.value.id).None?), "");
    }
  }

  // ----- a whole run -----

  /** The lease is not released, nothing is pinned, and every request was rejected. */
  predicate Under(s: State, failed: set<string>) {
    Inv(s, failed) && Kept(s, 0) && Pinned(s).None? && !Terminated(s) && AllRejected(s.log)
  }

  predicate Harmless(log: Log) {
    JustifiedSince(log, 0) && OnlyLastOpen(log)
  }

  /** A pass that lets the search go on has left the lease as it was or has released it. */
  lemma PassReleases(w: World, cfg: Config, s: State, region: string, failed: set<string>)
    requires Under(s, failed)
    ensures var s' := RegionPass(w, cfg, s, region).0;
            Harmless(s'.log) && (Pinned(s').None? ==> Under(s', failed) || Over(s'))
  {
    RegionPassKeeps(w, cfg, s, region, failed);
    PassIsJustified(w, cfg, s, region, 0);
    PassCloses(w, cfg, s, region);
    var s' := RegionPass(w, cfg, s, region).0;
    if Terminated(s') {
      TerminalIsPinnedOrReleased(s'.log, failed);
    }
  }

  lemma {:induction false} RegionsAreHarmless(w: World, cfg: Config, s: State, home: string, todo: seq<string>,
                                              errs: seq<Err>, failed: set<string>)
    requires Guards(w) && Harmless(s.log) && (todo != [] ==> Under(s, failed) || Over(s))
    ensures Harmless(SearchRegions(w, cfg, s, home, todo, errs).0.log)
    decreases |todo|
  {
    if todo != [] {
      var noClient := if todo[0] != home then w.client(s.log, todo[0]) else None;
      if noClient.Some? {
        RegionsAreHarmless(w, cfg, s, home, todo[1..], errs + [noClient.value], failed);
      } else {
        if Over(s) {
          PassStaysOver(w, cfg, s, todo[0]);
        } else {
          PassReleases(w, cfg, s, todo[0], failed);
        }
        var (s1, r) := RegionPass(w, cfg, s, todo[0]);
        if r.Failed? && ShouldRetryRegion(r.error, s1.control) {
          RegionsAreHarmless(w, cfg, s1, home, todo[1..], errs + [r.error], failed);
        }
      }
    }
  }

  /** With such a callback every run of a fixed lease, over any number of regions, sends no request after one that
      may have started an instance, and records failures and deletes keys only on EC2's word. */
  lemma ReleasedLeaseIsSafe(w: World, cfg: Config, c: Control, home: string, regions: seq<string>)
    requires Guards(w) && Fixed(c) && c.pinned.None? && !c.terminal
    ensures RunStartsAtMostOne(w, cfg, Some(c), home, regions)
    ensures RunIsJustified(w, cfg, Some(c), home, regions)
  {
    var s := State([], Some(c));
    if |regions| > 1 {
      RegionsAreHarmless(w, cfg, s, home, regions, [], c.failedTokens);
    } else {
      PassReleases(w, cfg, s, cfg.region, c.failedTokens);
    }
    var log := CreateServerWithFallback(w, cfg, s, home, regions).0.log;
    OnlyLastOpenIff(log);
    JustifiedSinceIff(log);
  }
}

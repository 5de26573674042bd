/** The launch search as the program runs it: loops that update the shared control and the history. */
module AwsLauncher {
  import opened Common
  import opened AwsErrors
  import Spec = AwsLaunch
  import opened AwsLaunch
  import Safety = AwsLaunchSafety
  import Theorems = AwsLaunchTheorems

  class FixedControl {
    var failedTokens: set<string>
    const hasBefore: bool
    const hasDefinite: bool
    var keyPairID: string
    var pinned: Option<Attempt>
    var terminal: bool

    constructor (failedTokens: set<string>, hasBefore: bool, hasDefinite: bool)
      ensures View() == Control("", None, false, failedTokens, hasBefore, hasDefinite)
    {
      this.failedTokens, this.hasBefore, this.hasDefinite := failedTokens, hasBefore, hasDefinite;
      keyPairID, pinned, terminal := "", None, false;
    }

    ghost function View(): Control
      reads this
    {
      Control(keyPairID, pinned, terminal, failedTokens, hasBefore, hasDefinite)
    }
  }

  class Launcher {
    const w: World
    const cfg: Config
    const control: FixedControl?
    var log: Log

    constructor (w: World, cfg: Config, control: FixedControl?)
      ensures this.w == w && this.cfg == cfg && this.control == control && log == []
    {
      this.w, this.cfg, this.control, log := w, cfg, control, [];
    }

    ghost function View(): State
      reads this, control
    {
      State(log, if control == null then None else Some(control.View()))
    }

    method Admit(a: Attempt) returns (refused: Option<Err>)
      modifies this`log, control
      ensures (View(), refused) == Spec.Admit(w, old(View()), a)
    {
      refused := None;
      if control != null {
        if a.token in control.failedTokens {
          refused := Some({InsufficientInstanceCapacity});
        } else if control.pinned.Some? {
          refused := Some({});
        } else if control.hasBefore {
          refused := w.before(log, a);
          log := log + [BeforeCalled(a, refused.None?)];
          if refused.None? {
            control.pinned := Some(a);
          }
        }
      }
    }

    method Send(a: Attempt) returns (r: Reply<Attempt, Err>)
      modifies this`log, control
      ensures (View(), r) == Spec.Send(w, old(View()), a)
    {
      var o := w.run(log, a);
      log := log + [Ran(a, o)];
      match o
      case Launched(n) =>
        r := if n == 0 then Failed({}) else Ok(a);
      case Rejected(code, error) =>
        var e := error;
        if code in TerminalCodes {
          if control != null {
            control.terminal := true;
          }
          e := {};
        }
        if control != null && Retryable(e) && control.hasDefinite {
          var refused := w.definite(log, a);
          log := log + [DefiniteCalled(a, refused.None?)];
          if refused.Some? {
            return Failed(e + refused.value);
          }
          control.pinned := None;
          if !control.terminal {
            control.failedTokens := control.failedTokens + {a.token};
          }
        }
        r := Failed(e);
    }

    method CreateServer(region: string, serverType: string, spot: bool, imageID: string, groupID: string)
      returns (r: Reply<Attempt, Err>)
      modifies this`log, control
      ensures (View(), r) == Spec.CreateServer(w, cfg, old(View()), region, serverType, spot, imageID, groupID)
    {
      var a := Attempt(region, serverType, spot, imageID, groupID, "", cfg.leaseID);
      if control != null {
        a := a.(token := w.token(region, serverType, spot, imageID, groupID), keyPairID := control.keyPairID);
      }
      var unprepared := w.prepare(log, a);
      if unprepared.Some? {
        return Failed(unprepared.value);
      }
      var refused := Admit(a);
      if refused.Some? {
        return Failed(refused.value);
      }
      r := Send(a);
    }

    method TryCreate(site: Site, serverType: string, spot: bool) returns (r: Reply<Attempt, Err>)
      modifies this`log, control
      ensures (View(), r) == Spec.TryCreate(w, cfg, old(View()), site, serverType, spot)
    {
      var image := if site.image.Some? then Ok(site.image.value) else w.image(log, site.region, serverType);
      if image.Failed? {
        r := Failed(image.error);
      } else {
        r := CreateServer(site.region, serverType, spot, image.value, site.groupID);
      }
      log := log + [Tried(serverType, spot, if r.Ok? then None else Some(r.error))];
    }

    method TryAll(site: Site, candidates: seq<string>, spot: bool, earlier: seq<Err>) returns (scan: Scan)
      modifies this`log, control
      ensures (View(), scan) == Spec.TryAll(w, cfg, old(View()), site, candidates, spot, earlier, [])
    {
      var errs, fallback, i := earlier, [], 0;
      while i < |candidates|
        invariant 0 <= i <= |candidates|
        invariant Spec.TryAll(w, cfg, old(View()), site, candidates, spot, earlier, []) ==
                  Spec.TryAll(w, cfg, View(), site, candidates[i..], spot, errs, fallback)
      {
        assert candidates[i..][0] == candidates[i] && candidates[i..][1..] == candidates[i + 1..];
        var r := TryCreate(site, candidates[i], spot);
        if r.Ok? {
          return Stopped(r);
        }
        errs := errs + [r.error];
        if !Retryable(r.error) {
          return Stopped(Failed(Union(errs)));
        }
        if spot && MarketFallback(r.error) {
          fallback := fallback + [candidates[i]];
        }
        i := i + 1;
      }
      scan := Exhausted(errs, fallback);
    }

    method SearchMarkets(site: Site, candidates: seq<string>) returns (r: Reply<Option<Attempt>, Err>)
      modifies this`log, control
      ensures (View(), r) == Spec.SearchMarkets(w, cfg, old(View()), site, candidates)
    {
      var scan := TryAll(site, candidates, cfg.spot, []);
      if scan.Exhausted? && scan.fallback != [] && cfg.onDemandFallback {
        scan := TryAll(site, scan.fallback, false, scan.errs);
      }
      if scan.Stopped? {
        return Lift(scan.result);
      }
      var e := ExhaustedError(cfg, scan.errs);
      r := if e.Some? then Failed(e.value) else Ok(None);
    }

    method Rollback(key: KeyBinding, e: Err) returns (e': Err)
      modifies this`log, control
      ensures (View(), e') == Spec.Rollback(w, old(View()), key, e)
    {
      var terminal := control != null && control.terminal && control.pinned.Some?;
      if (key.created && (control == null || control.pinned.None?)) || (terminal && key.managed) {
        if key.id != "" {
          var refused := w.deleteKey(log, key.id);
          log := log + [KeyDeleted(key.id, refused.None?)];
          if refused.Some? {
            return e + refused.value;
          }
        }
      }
      if terminal && control.hasDefinite {
        var unsaved := w.definite(log, control.pinned.value);
        log := log + [DefiniteCalled(control.pinned.value, unsaved.None?)];
        if unsaved.Some? {
          return e + unsaved.value;
        }
        control.pinned := None;
      }
      e' := e;
    }

    method Provision(region: string, candidates: seq<string>) returns (r: Reply<Option<Attempt>, Err>)
      modifies this`log, control
      ensures (View(), r) == Spec.Provision(w, cfg, old(View()), region, candidates)
    {
      var image := w.staticImage(log, region);
      if image.Failed? {
        return Failed(image.error);
      }
      var group := w.group(log, region);
      if group.Failed? {
        return Failed(group.error);
      }
      r := SearchMarkets(Site(region, image.value, group.value), candidates);
    }

    method RegionPass(region: string) returns (r: Reply<Option<Attempt>, Err>)
      modifies this`log, control
      ensures (View(), r) == Spec.RegionPass(w, cfg, old(View()), region)
    {
      log := log + [PassStarted(region)];
      var candidates := w.candidates(log, region);
      if candidates.Failed? {
        return Failed(candidates.error);
      }
      var key := EnsureKeyBinding(w, log);
      if key.Failed? {
        return Failed(key.error);
      }
      log := log + [KeyBound(key.value)];
      if control != null {
        control.keyPairID := key.value.id;
      }
      r := Provision(region, candidates.value);
      if r.Failed? {
        var e := Rollback(key.value, r.error);
        r := Failed(e);
      }
    }

    method SearchRegions(home: string, regions: seq<string>) returns (r: Reply<Option<Attempt>, Err>)
      modifies this`log, control
      ensures (View(), r) == Spec.SearchRegions(w, cfg, old(View()), home, regions, [])
    {
      var errs: seq<Err>, i := [], 0;
      while i < |regions|
        invariant 0 <= i <= |regions|
        invariant Spec.SearchRegions(w, cfg, old(View()), home, regions, []) ==
                  Spec.SearchRegions(w, cfg, View(), home, regions[i..], errs)
      {
        assert regions[i..][0] == regions[i] && regions[i..][1..] == regions[i + 1..];
        var noClient := if regions[i] != home then w.client(log, regions[i]) else None;
        if noClient.Some? {
          errs := errs + [noClient.value];
        } else {
          r := RegionPass(regions[i]);
          if r.Ok? {
            return;
          }
          errs := errs + [r.error];
          if (control != null && control.pinned.Some?) || !RegionRetryable(r.error) {
            return Failed(Union(errs));
          }
        }
        i := i + 1;
      }
      r := if errs == [] then Ok(None) else Failed(Union(errs));
    }

    method CreateServerWithFallback(home: string, regions: seq<string>) returns (r: Reply<Option<Attempt>, Err>)
      modifies this`log, control
      ensures (View(), r) == Spec.CreateServerWithFallback(w, cfg, old(View()), home, regions)
      ensures old(log) == [] && control != null && control.hasBefore && control.hasDefinite &&
              old(control.pinned).None? && !old(control.terminal) ==>
                Safety.Inv(View(), old(control.failedTokens))
    {
      if control != null && control.hasBefore && control.hasDefinite && control.pinned.None? && !control.terminal {
        Theorems.RunKeeps(w, cfg, control.View(), home, regions);
      }
      if control != null && control.pinned.Some? {
        return Failed({});
      }
      if |regions| > 1 {
        r := SearchRegions(home, regions);
      } else {
        r := RegionPass(cfg.region);
      }
    }
  }
}

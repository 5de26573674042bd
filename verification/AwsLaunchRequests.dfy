/**
  What is sent is what is tried: every request is for the type and market of its try, in the region of its pass,
  with that region's group, image and key.
 */
module AwsLaunchRequests {
  import opened Common
  import opened AwsErrors
  import opened AwsLaunch
  import opened AwsLaunchSafety

  // ----- what a history says -----

  /** The regions entered, in order. */
  function Entered(log: Log): seq<string> {
    if log == [] then []
    else Entered(Front(log)) + if Last(log).PassStarted? then [Last(log).region] else []
  }

  /** The history when the key of the present pass was bound, which is when group and static image were looked up. */
  function AtBinding(log: Log): Log {
    if log == [] || Last(log).KeyBound? then log else AtBinding(Front(log))
  }

  /** The history when the present try began. */
  function AtTry(log: Log): Log {
    if log != [] && Last(log).BeforeCalled? then Front(log) else log
  }

  /** A request and its outcome. */
  datatype Request = Request(attempt: Attempt, outcome: RunOutcome)

  /** The request whose try is not yet noted. */
  function Pending(log: Log): Option<Request> {
    if log == [] then None else
    match Last(log)
    case Ran(a, o) => Some(Request(a, o))
    case Tried(_, _, _) => None
    case _ => Pending(Front(log))
  }

  predicate Started(o: RunOutcome) {
    o.Launched? && o.instances > 0
  }

  /** A try of that type and market that sent this request, if any, and ended like this: it succeeded exactly if an
      instance was started, and a rejection is in the error. */
  predicate TryOf(request: Option<Request>, serverType: string, spot: bool, error: Option<Err>) {
    match request
    case None => error.Some?
    case Some(Request(a, o)) =>
      && a.serverType == serverType && a.spot == spot && (error.None? <==> Started(o))
      && (o.Rejected? ==> error.Some? && ReportedError(o) <= error.value)
  }

  // ----- what ties a request to its try -----

  predicate RightImage(w: World, past: Log, a: Attempt) {
    match w.staticImage(AtBinding(past), a.region)
    case Ok(Some(id)) => a.imageID == id
    case Ok(None) => w.image(AtTry(past), a.region, a.serverType) == Ok(a.imageID)
    case Failed(_) => false
  }

  /** The request is for the region last entered, with the group and image found there, and the key bound there, and
      could be prepared. */
  predicate RightPlace(w: World, cfg: Config, fixed: bool, past: Log, a: Attempt) {
    && Entered(past) != [] && a.region == Entered(past)[|Entered(past)| - 1]
    && w.group(AtBinding(past), a.region) == Ok(a.groupID)
    && RightImage(w, past, a) && w.prepare(AtTry(past), a).None?
    && (fixed ==> LastKey(past).Some? && a.keyPairID == LastKey(past).value.id &&
                  a.token == w.token(a.region, a.serverType, a.spot, a.imageID, a.groupID))
    && (!fixed ==> a.keyPairID == "" && a.token == cfg.leaseID)
  }

  predicate StepTied(w: World, cfg: Config, fixed: bool, past: Log, e: Event) {
    match e
    case Ran(a, _) => Pending(past).None? && RightPlace(w, cfg, fixed, past, a)
    case Tried(serverType, spot, error) => TryOf(Pending(past), serverType, spot, error)
    case PassStarted(_) => Pending(past).None?
    case _ => true
  }

  predicate Tied(w: World, cfg: Config, fixed: bool, log: Log) {
    log == [] || (Tied(w, cfg, fixed, Front(log)) && StepTied(w, cfg, fixed, Front(log), Last(log)))
  }

  /** An event of a try other than its request. */
  predicate Aside(e: Event) {
    e.BeforeCalled? || e.DefiniteCalled? || e.KeyDeleted?
  }

  lemma AsideKeeps(w: World, cfg: Config, fixed: bool, log: Log, e: Event)
    requires Tied(w, cfg, fixed, log) && Aside(e)
    ensures var log' := log + [e];
            && Tied(w, cfg, fixed, log') && Pending(log') == Pending(log) && Entered(log') == Entered(log)
            && AtBinding(log') == AtBinding(log) && LastKey(log') == LastKey(log)
  {
    Snoc(log, e);
  }

  // ----- one try -----

  /** Where the tries of a pass take place. */
  predicate AtSite(w: World, log: Log, site: Site) {
    && Entered(log) != [] && site.region == Entered(log)[|Entered(log)| - 1]
    && w.group(AtBinding(log), site.region) == Ok(site.groupID)
    && w.staticImage(AtBinding(log), site.region) == Ok(site.image)
  }

  predicate KeyAtHand(s: State) {
    s.control.Some? ==> LastKey(s.log).Some? && s.control.value.keyPairID == LastKey(s.log).value.id
  }

  /** All requests so far are tied to their tries, and the next try can begin. */
  predicate Poised(w: World, cfg: Config, s: State, site: Site) {
    && Tied(w, cfg, s.control.Some?, s.log) && Pending(s.log).None? && AtSite(w, s.log, site) && KeyAtHand(s)
    && AtTry(s.log) == s.log
  }

  /** What does not change while a pass goes on. */
  predicate SamePass(s: State, s': State) {
    && Entered(s'.log) == Entered(s.log) && AtBinding(s'.log) == AtBinding(s.log) && LastKey(s'.log) == LastKey(s.log)
    && s'.control.Some? == s.control.Some?
    && (s.control.Some? ==> s'.control.value.keyPairID == s.control.value.keyPairID)
  }

  function ErrorOf(r: Reply<Attempt, Err>): Option<Err> {
    if r.Ok? then None else Some(r.error)
  }

  /** After a request: it is the pending one, if any was sent, and the answer is told by it. */
  predicate Requested(w: World, cfg: Config, s: State, s': State, serverType: string, spot: bool,
                      r: Reply<Attempt, Err>) {
    && SamePass(s, s') && Tied(w, cfg, s.control.Some?, s'.log)
    && TryOf(Pending(s'.log), serverType, spot, ErrorOf(r))
    && (r.Ok? ==> r.value == Pending(s'.log).value.attempt)
  }

  lemma SettleIsTied(w: World, cfg: Config, s: State, a: Attempt, o: RunOutcome)
    requires o.Rejected? && Tied(w, cfg, s.control.Some?, s.log) && Pending(s.log) == Some(Request(a, o))
    ensures var (s', e) := Settle(w, s, a, o);
            && SamePass(s, s') && Tied(w, cfg, s.control.Some?, s'.log) && Pending(s'.log) == Pending(s.log)
            && ReportedError(o) <= e
  {
    AsideKeeps(w, cfg, s.control.Some?, s.log, DefiniteCalled(a, w.definite(s.log, a).None?));
  }

  lemma SendIsTied(w: World, cfg: Config, s: State, a: Attempt)
    requires Tied(w, cfg, s.control.Some?, s.log) && Pending(s.log).None?
    requires RightPlace(w, cfg, s.control.Some?, s.log, a)
    ensures var (s', r) := Send(w, s, a); Requested(w, cfg, s, s', a.serverType, a.spot, r)
  {
    var o := w.run(s.log, a);
    var sent := s.(log := s.log + [Ran(a, o)]);
    Snoc(s.log, Ran(a, o));
    assert Tied(w, cfg, s.control.Some?, sent.log) && SamePass(s, sent);
    if o.Rejected? {
      SettleIsTied(w, cfg, sent, a, o);
    }
  }

  lemma AdmitIsTied(w: World, cfg: Config, s: State, a: Attempt)
    requires Tied(w, cfg, s.control.Some?, s.log) && Pending(s.log).None? && AtTry(s.log) == s.log
    requires RightPlace(w, cfg, s.control.Some?, s.log, a)
    ensures var (s', refused) := Admit(w, s, a);
            && SamePass(s, s') && Tied(w, cfg, s.control.Some?, s'.log) && Pending(s'.log).None?
            && RightPlace(w, cfg, s.control.Some?, s'.log, a)
  {
    var e := BeforeCalled(a, w.before(s.log, a).None?);
    Snoc(s.log, e);
    AsideKeeps(w, cfg, s.control.Some?, s.log, e);
  }

  lemma AttemptIsRight(w: World, cfg: Config, s: State, site: Site, serverType: string, spot: bool, imageID: string)
    requires Poised(w, cfg, s, site)
    requires site.image == Some(imageID) || (site.image.None? && w.image(s.log, site.region, serverType) == Ok(imageID))
    ensures var a := MakeAttempt(w, cfg, s, site.region, serverType, spot, imageID, site.groupID);
            a.serverType == serverType && a.spot == spot &&
            (w.prepare(s.log, a).None? ==> RightPlace(w, cfg, s.control.Some?, s.log, a))
  {
  }

  lemma CreateServerIsTied(w: World, cfg: Config, s: State, site: Site, serverType: string, spot: bool, imageID: string)
    requires Poised(w, cfg, s, site)
    requires site.image == Some(imageID) || (site.image.None? && w.image(s.log, site.region, serverType) == Ok(imageID))
    ensures var (s', r) := CreateServer(w, cfg, s, site.region, serverType, spot, imageID, site.groupID);
            Requested(w, cfg, s, s', serverType, spot, r)
  {
    var a := MakeAttempt(w, cfg, s, site.region, serverType, spot, imageID, site.groupID);
    AttemptIsRight(w, cfg, s, site, serverType, spot, imageID);
    if w.prepare(s.log, a).None? {
      AdmitIsTied(w, cfg, s, a);
      var (admitted, refused) := Admit(w, s, a);
      if refused.None? {
        SendIsTied(w, cfg, admitted, a);
      }
    }
  }

  /** The answer names the last request, which started an instance. */
  predicate Launches(log: Log, a: Attempt) {
    LastRun(log).Some? && LastRun(log).value.attempt == a && Started(LastRun(log).value.outcome)
  }

  lemma {:induction false} PendingIsLast(log: Log)
    requires Pending(log).Some?
    ensures LastRun(log) == Some(Ran(Pending(log).value.attempt, Pending(log).value.outcome))
  {
    if !Last(log).Ran? {
      PendingIsLast(Front(log));
    }
  }

  lemma NotedIsPoised(w: World, cfg: Config, s: State, s': State, site: Site, serverType: string, spot: bool,
                      r: Reply<Attempt, Err>)
    requires Poised(w, cfg, s, site) && Requested(w, cfg, s, s', serverType, spot, r)
    ensures var s'' := s'.(log := s'.log + [Tried(serverType, spot, ErrorOf(r))]);
            Poised(w, cfg, s'', site) && SamePass(s, s'') && (r.Ok? ==> Launches(s''.log, r.value))
  {
    Snoc(s'.log, Tried(serverType, spot, ErrorOf(r)));
    if r.Ok? {
      PendingIsLast(s'.log);
    }
  }

  lemma TryCreateIsTied(w: World, cfg: Config, s: State, site: Site, serverType: string, spot: bool)
    requires Poised(w, cfg, s, site)
    ensures var (s', r) := TryCreate(w, cfg, s, site, serverType, spot);
            Poised(w, cfg, s', site) && SamePass(s, s') && (r.Ok? ==> Launches(s'.log, r.value))
  {
    var resolved := if site.image.Some? then Ok(site.image.value)
                    else w.image(s.log, site.region, serverType);
    if resolved.Ok? {
      CreateServerIsTied(w, cfg, s, site, serverType, spot, resolved.value);
      var (s1, r) := CreateServer(w, cfg, s, site.region, serverType, spot, resolved.value, site.groupID);
      NotedIsPoised(w, cfg, s, s1, site, serverType, spot, r);
    } else {
      NotedIsPoised(w, cfg, s, s, site, serverType, spot, Failed(resolved.error));
    }
  }

  // ----- one region -----

  lemma {:induction false} TryAllIsTied(w: World, cfg: Config, s: State, site: Site, todo: seq<string>, spot: bool,
                                        errs: seq<Err>, fallback: seq<string>)
    requires Poised(w, cfg, s, site)
    ensures var (s', scan) := TryAll(w, cfg, s, site, todo, spot, errs, fallback);
            && Poised(w, cfg, s', site) && SamePass(s, s')
            && (scan.Stopped? && scan.result.Ok? ==> Launches(s'.log, scan.result.value))
    decreases |todo|
  {
    if todo != [] {
      TryCreateIsTied(w, cfg, s, site, todo[0], spot);
      var (s1, r) := TryCreate(w, cfg, s, site, todo[0], spot);
      if r.Failed? && Retryable(r.error) {
        var fallback' := if spot && MarketFallback(r.error) then fallback + [todo[0]] else fallback;
        TryAllIsTied(w, cfg, s1, site, todo[1..], spot, errs + [r.error], fallback');
      }
    }
  }

  /** Between passes all requests are tied to their tries. */
  predicate Resting(w: World, cfg: Config, s: State) {
    Tied(w, cfg, s.control.Some?, s.log) && Pending(s.log).None?
  }

  lemma ProvisionIsTied(w: World, cfg: Config, s: State, region: string, candidates: seq<string>)
    requires Resting(w, cfg, s) && KeyAtHand(s) && s.log != [] && Last(s.log).KeyBound?
    requires Entered(s.log) != [] && region == Entered(s.log)[|Entered(s.log)| - 1]
    ensures var (s', r) := Provision(w, cfg, s, region, candidates);
            && Resting(w, cfg, s') && Entered(s'.log) == Entered(s.log) && s'.control.Some? == s.control.Some?
            && (r.Ok? && r.value.Some? ==> Launches(s'.log, r.value.value))
  {
    var image := w.staticImage(s.log, region);
    var group := w.group(s.log, region);
    if image.Ok? && group.Ok? {
      var site := Site(region, image.value, group.value);
      TryAllIsTied(w, cfg, s, site, candidates, cfg.spot, [], []);
      var (s1, first) := TryAll(w, cfg, s, site, candidates, cfg.spot, [], []);
      if first.Exhausted? {
        TryAllIsTied(w, cfg, s1, site, first.fallback, false, first.errs, []);
      }
    }
  }

  lemma RollbackIsTied(w: World, cfg: Config, s: State, key: KeyBinding, e: Err)
    requires Resting(w, cfg, s)
    ensures var s' := Rollback(w, s, key, e).0;
            Resting(w, cfg, s') && Entered(s'.log) == Entered(s.log) && s'.control.Some? == s.control.Some?
  {
    var fixed := s.control.Some?;
    var deleted := s.log + [KeyDeleted(key.id, w.deleteKey(s.log, key.id).None?)];
    AsideKeeps(w, cfg, fixed, s.log, KeyDeleted(key.id, w.deleteKey(s.log, key.id).None?));
    if fixed && s.control.value.pinned.Some? {
      var a := s.control.value.pinned.value;
      AsideKeeps(w, cfg, fixed, s.log, DefiniteCalled(a, w.definite(s.log, a).None?));
      AsideKeeps(w, cfg, fixed, deleted, DefiniteCalled(a, w.definite(deleted, a).None?));
    }
  }

  lemma BindingIsTied(w: World, cfg: Config, s: State, region: string, key: KeyBinding)
    requires Resting(w, cfg, s)
    ensures var s0 := s.(log := s.log + [PassStarted(region)]);
            var bound := BindKey(s0, key);
            && Resting(w, cfg, s0) && Entered(s0.log) == Entered(s.log) + [region]
            && Resting(w, cfg, bound) && KeyAtHand(bound) && Last(bound.log).KeyBound?
            && Entered(bound.log) == Entered(s.log) + [region]
  {
    var entered := s.log + [PassStarted(region)];
    Snoc(s.log, PassStarted(region));
    assert Tied(w, cfg, s.control.Some?, entered) && Pending(entered).None?;
    Snoc(entered, KeyBound(key));
    var bound := entered + [KeyBound(key)];
    assert Tied(w, cfg, s.control.Some?, bound) && Pending(bound).None? && LastKey(bound) == Some(key);
  }

  /** A key is bound exactly if it was found to be foreign or ours, or was missing and imported under an id; it is ours
      to delete exactly if it has an id, which is the one found or imported. */
  lemma BoundKeyIs(w: World, log: Log)
    ensures var r, found := EnsureKeyBinding(w, log), w.describeKey(log);
            && (r.Ok? <==> found.KeyForeign? || found.KeyOwned? ||
                           (found.KeyMissing? && w.importKey(log).Ok? && w.importKey(log).value != ""))
            && (r.Ok? ==> (r.value.managed <==> r.value.id != "") && (r.value.created <==> found.KeyMissing?))
            && (r.Ok? && found.KeyForeign? ==> r.value.id == "")
            && (r.Ok? && found.KeyOwned? ==> r.value.id == found.id)
            && (r.Ok? && found.KeyMissing? ==> Ok(r.value.id) == w.importKey(log))
  {
  }

  /** A pass enters one region, and all its requests belong there. */
  lemma RegionPassIsTied(w: World, cfg: Config, s: State, region: string)
    requires Resting(w, cfg, s)
    ensures var (s', r) := RegionPass(w, cfg, s, region);
            && Resting(w, cfg, s') && Entered(s'.log) == Entered(s.log) + [region]
            && s'.control.Some? == s.control.Some?
            && (r.Ok? && r.value.Some? ==> Launches(s'.log, r.value.value))
  {
    var s0 := s.(log := s.log + [PassStarted(region)]);
    BindingIsTied(w, cfg, s, region, KeyBinding("", false, false));
    var candidates := w.candidates(s0.log, region);
    var key := EnsureKeyBinding(w, s0.log);
    if candidates.Ok? && key.Ok? {
      BindingIsTied(w, cfg, s, region, key.value);
      var bound := BindKey(s0, key.value);
      ProvisionIsTied(w, cfg, bound, region, candidates.value);
      var (s1, r) := Provision(w, cfg, bound, region, candidates.value);
      if r.Failed? {
        RollbackIsTied(w, cfg, s1, key.value, r.error);
      }
    }
  }

  // ----- a whole run -----

  lemma {:induction false} SearchRegionsIsTied(w: World, cfg: Config, s: State, home: string, todo: seq<string>,
                                               errs: seq<Err>)
    requires Resting(w, cfg, s)
    ensures var (s', r) := SearchRegions(w, cfg, s, home, todo, errs);
            && Resting(w, cfg, s') && s'.control.Some? == s.control.Some?
            && (r.Ok? && r.value.Some? ==> Launches(s'.log, r.value.value))
    decreases |todo|
  {
    if todo != [] {
      var noClient := if todo[0] != home then w.client(s.log, todo[0]) else None;
      if noClient.Some? {
        SearchRegionsIsTied(w, cfg, s, home, todo[1..], errs + [noClient.value]);
      } else {
        RegionPassIsTied(w, cfg, s, todo[0]);
        var (s1, r) := RegionPass(w, cfg, s, todo[0]);
        if r.Failed? && ShouldRetryRegion(r.error, s1.control) {
          SearchRegionsIsTied(w, cfg, s1, home, todo[1..], errs + [r.error]);
        }
      }
    }
  }

  /** The request is followed by the note of its own try, before anything else is sent or entered. */
  predicate NotedAs(log: Log, i: nat, k: nat)
    requires i < |log| && log[i].Ran?
  {
    && i < k < |log| && log[k].Tried?
    && TryOf(Some(Request(log[i].attempt, log[i].outcome)), log[k].serverType, log[k].spot, log[k].error)
    && forall m | i < m < k :: !log[m].Ran? && !log[m].Tried? && !log[m].PassStarted?
  }

  lemma {:induction false} TiedAt(w: World, cfg: Config, fixed: bool, log: Log, i: nat)
    requires Tied(w, cfg, fixed, log) && i < |log|
    ensures StepTied(w, cfg, fixed, log[..i], log[i])
  {
    if i < |log| - 1 {
      TiedAt(w, cfg, fixed, Front(log), i);
      assert Front(log)[..i] == log[..i];
    }
  }

  /** From a request on it stays pending until it is noted. */
  lemma {:induction false} PendingUntilNoted(w: World, cfg: Config, fixed: bool, log: Log, i: nat, n: nat)
    returns (k: nat)
    requires Tied(w, cfg, fixed, log) && Pending(log).None?
    requires i < n <= |log| && log[i].Ran? && Pending(log[..n]) == Some(Request(log[i].attempt, log[i].outcome))
    requires forall m | i < m < n :: !log[m].Ran? && !log[m].Tried? && !log[m].PassStarted?
    ensures NotedAs(log, i, k)
    decreases |log| - n
  {
    assert log[..|log|] == log;
    TiedAt(w, cfg, fixed, log, n);
    if log[n].Tried? {
      k := n;
    } else {
      assert Front(log[..n + 1]) == log[..n] && Last(log[..n + 1]) == log[n];
      k := PendingUntilNoted(w, cfg, fixed, log, i, n + 1);
    }
  }

  lemma RequestIsNoted(w: World, cfg: Config, fixed: bool, log: Log, i: nat) returns (k: nat)
    requires Tied(w, cfg, fixed, log) && Pending(log).None? && i < |log| && log[i].Ran?
    ensures NotedAs(log, i, k)
  {
    assert Front(log[..i + 1]) == log[..i] && Last(log[..i + 1]) == log[i];
    k := PendingUntilNoted(w, cfg, fixed, log, i, i + 1);
  }

  /** In every run, for a fixed lease or not: each request is noted as a try of its own type and market before
      anything else is sent, and the try succeeded exactly if an instance was started; the request is for the region
      last entered, with the group and the image found there for its type; a fixed lease sends the key bound there
      and the token of exactly that request, any other the lease id. */
  lemma RequestsMatchTheirTries(w: World, cfg: Config, control: Option<Control>, home: string, regions: seq<string>,
                                i: nat) returns (k: nat)
    requires var log := CreateServerWithFallback(w, cfg, State([], control), home, regions).0.log;
             i < |log| && log[i].Ran?
    ensures var log := CreateServerWithFallback(w, cfg, State([], control), home, regions).0.log;
            NotedAs(log, i, k) && RightPlace(w, cfg, control.Some?, log[..i], log[i].attempt)
  {
    RunIsTied(w, cfg, control, home, regions);
    var log := CreateServerWithFallback(w, cfg, State([], control), home, regions).0.log;
    k := RequestIsNoted(w, cfg, control.Some?, log, i);
    TiedAt(w, cfg, control.Some?, log, i);
  }

  /** A run that succeeds with a server names the last request it sent, and that one started an instance. */
  lemma RunIsTied(w: World, cfg: Config, control: Option<Control>, home: string, regions: seq<string>)
    ensures var (s, r) := CreateServerWithFallback(w, cfg, State([], control), home, regions);
            && Tied(w, cfg, control.Some?, s.log) && Pending(s.log).None?
            && (r.Ok? && r.value.Some? ==> Launches(s.log, r.value.value))
  {
    var s := State([], control);
    if |regions| > 1 {
      SearchRegionsIsTied(w, cfg, s, home, regions, []);
    } else {
      RegionPassIsTied(w, cfg, s, cfg.region);
    }
  }
}

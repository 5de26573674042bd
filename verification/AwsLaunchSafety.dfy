/** What every run of the launch search keeps, for every behaviour of EC2 and of the callbacks. */
module AwsLaunchSafety {
  import opened Common
  import opened AwsErrors
  import opened AwsLaunch

  // ----- what a history says -----

  function Front(log: Log): Log
    requires log != []
  {
    log[..|log| - 1]
  }

  function Last(log: Log): Event
    requires log != []
  {
    log[|log| - 1]
  }

  /** The durably recorded attempt that is not yet durably resolved. */
  function Unresolved(log: Log): Option<Attempt> {
    if log == [] then None else
    match Last(log)
    case BeforeCalled(a, ok) => if ok then Some(a) else Unresolved(Front(log))
    case DefiniteCalled(_, ok) => if ok then None else Unresolved(Front(log))
    case _ => Unresolved(Front(log))
  }

  function LastRun(log: Log): Option<Event>
    ensures LastRun(log).Some? ==> LastRun(log).value.Ran?
  {
    if log == [] then None
    else if Last(log).Ran? then Some(Last(log))
    else LastRun(Front(log))
  }

  function LastKey(log: Log): Option<KeyBinding> {
    if log == [] then None
    else if Last(log).KeyBound? then Some(Last(log).binding)
    else LastKey(Front(log))
  }

  /** The tokens that were recorded as failed, the lease going on. */
  function Recorded(log: Log): set<string> {
    if log == [] then {}
    else if Last(log).DefiniteCalled? && Last(log).ok && !HasTerminal(Front(log))
    then Recorded(Front(log)) + {Last(log).attempt.token}
    else Recorded(Front(log))
  }

  predicate HasTerminal(log: Log) {
    log != [] && ((Last(log).Ran? && TerminallyRejected(Last(log).outcome)) || HasTerminal(Front(log)))
  }

  /** Another region was entered after a terminal rejection. */
  predicate PastTerminal(log: Log) {
    log != [] && ((Last(log).PassStarted? && HasTerminal(Front(log))) || PastTerminal(Front(log)))
  }

  /** The last launch was the given attempt, and EC2 refused it with a terminal code. */
  predicate TerminalFor(log: Log, a: Attempt) {
    var r := LastRun(log);
    r.Some? && r.value.attempt == a && TerminallyRejected(r.value.outcome)
  }

  // ----- the two rules -----

  predicate StepLegal(past: Log, e: Event, failed: set<string>) {
    match e
    case BeforeCalled(a, _) => Unresolved(past).None? && a.token !in failed + Recorded(past)
    case Ran(a, _) => past != [] && Last(past) == BeforeCalled(a, true)
    case DefiniteCalled(a, _) => Unresolved(past) == Some(a)
    case _ => true
  }

  /** The request protocol: record, then send, one unresolved attempt at a time. */
  predicate Legal(log: Log, failed: set<string>) {
    log == [] || (Legal(Front(log), failed) && StepLegal(Front(log), Last(log), failed))
  }

  predicate KeyIsGone(past: Log) {
    var k := LastKey(past);
    k.Some? && k.value.managed ==> past != [] && Last(past) == KeyDeleted(k.value.id, true)
  }

  predicate StepJustified(past: Log, e: Event) {
    match e
    case DefiniteCalled(a, _) =>
      var r := LastRun(past);
      && r.Some? && r.value.attempt == a && DefinitelyRejected(r.value.outcome)
      && (TerminallyRejected(r.value.outcome) ==> KeyIsGone(past))
    case KeyDeleted(_, _) =>
      Unresolved(past).Some? ==> TerminalFor(past, Unresolved(past).value)
    case _ => true
  }

  /** Failures are recorded and keys deleted only on EC2's word, until a region is entered after a
      terminal rejection. */
  predicate Justified(log: Log) {
    log == [] ||
    (Justified(Front(log)) && (PastTerminal(Front(log)) || StepJustified(Front(log), Last(log))))
  }

  lemma Snoc(log: Log, e: Event)
    ensures Front(log + [e]) == log && Last(log + [e]) == e
  {
  }

  // ----- the invariant -----

  /** The control of a fixed lease has both callbacks. */
  predicate Fixed(c: Control) {
    c.hasBefore && c.hasDefinite
  }

  /** The control mirrors the history. */
  predicate Mirrors(s: State, failed: set<string>) {
    && s.control.Some? && Fixed(s.control.value)
    && s.control.value.failedTokens == failed + Recorded(s.log)
    && s.control.value.pinned == Unresolved(s.log)
    && s.control.value.terminal == HasTerminal(s.log)
  }

  /** An unresolved attempt is the one that ran last; after a terminal code, it is the refused one. */
  predicate Anchored(s: State) {
    Unresolved(s.log).Some? ==>
      && LastRun(s.log).Some? && LastRun(s.log).value.attempt == Unresolved(s.log).value
      && (HasTerminal(s.log) ==> TerminallyRejected(LastRun(s.log).value.outcome))
  }

  predicate Inv(s: State, failed: set<string>) {
    && Mirrors(s, failed)
    && Legal(s.log, failed)
    && Justified(s.log)
    && (PastTerminal(s.log) || Anchored(s))
  }

  /** A launch may follow. */
  predicate Ready(s: State) {
    PastTerminal(s.log) || !HasTerminal(s.log)
  }

  lemma AdmitKeeps(w: World, s: State, a: Attempt, failed: set<string>)
    requires Inv(s, failed)
    ensures var (s', e) := Admit(w, s, a);
            && (e.Some? ==> Inv(s', failed) && HasTerminal(s'.log) == HasTerminal(s.log))
            && (e.None? ==> Unresolved(s.log).None? && a.token !in failed + Recorded(s.log) &&
                            s'.log == s.log + [BeforeCalled(a, true)] &&
                            s'.control == Some(s.control.value.(pinned := Some(a))))
            && LastKey(s'.log) == LastKey(s.log)
            && PastTerminal(s'.log) == PastTerminal(s.log)
  {
    var refused := w.before(s.log, a);
    Snoc(s.log, BeforeCalled(a, refused.None?));
  }

  lemma SettleKeeps(w: World, s: State, a: Attempt, o: RunOutcome, failed: set<string>)
    requires o.Rejected?
    requires s.log != [] && Last(s.log) == Ran(a, o)
    requires s.control.Some? && Fixed(s.control.value) && s.control.value.failedTokens == failed + Recorded(s.log)
    requires s.control.value.pinned == Unresolved(s.log) == Some(a)
    requires (s.control.value.terminal || TerminallyRejected(o)) == HasTerminal(s.log)
    requires PastTerminal(s.log) || (HasTerminal(s.log) <==> TerminallyRejected(o))
    requires Legal(s.log, failed) && Justified(s.log)
    ensures var (s', e) := Settle(w, s, a, o);
            && Inv(s', failed) && LastKey(s'.log) == LastKey(s.log)
            && PastTerminal(s'.log) == PastTerminal(s.log)
            && HasTerminal(s'.log) == HasTerminal(s.log)
            && (TerminallyRejected(o) ==> e == {} && s'.control.value.pinned == Some(a))
  {
    if Retryable(ReportedError(o)) {
      RecordedKeeps(s, a, o, failed, w.definite(s.log, a).None?);
    }
  }

  /** Recording a refusal that is not terminal. */
  lemma RecordedKeeps(s: State, a: Attempt, o: RunOutcome, failed: set<string>, ok: bool)
    requires DefinitelyRejected(o) && !TerminallyRejected(o) && s.log != [] && Last(s.log) == Ran(a, o)
    requires s.control.Some? && Fixed(s.control.value) && s.control.value.failedTokens == failed + Recorded(s.log)
    requires s.control.value.pinned == Unresolved(s.log) == Some(a)
    requires s.control.value.terminal == HasTerminal(s.log) && (PastTerminal(s.log) || !HasTerminal(s.log))
    requires Legal(s.log, failed) && Justified(s.log)
    ensures var c := if ok then Resolved(s.control.value, a) else s.control.value;
            var s' := State(s.log + [DefiniteCalled(a, ok)], Some(c));
            && Inv(s', failed) && LastKey(s'.log) == LastKey(s.log)
            && PastTerminal(s'.log) == PastTerminal(s.log)
            && HasTerminal(s'.log) == HasTerminal(s.log)
  {
    assert LastRun(s.log) == Some(Ran(a, o));
    Snoc(s.log, DefiniteCalled(a, ok));
    assert LastRun(s.log + [DefiniteCalled(a, ok)]) == LastRun(s.log);
  }

  /** What one launch leaves behind. */
  predicate LaunchStep(s: State, s': State, r: Reply<Attempt, Err>, failed: set<string>) {
    && Inv(s', failed)
    && LastKey(s'.log) == LastKey(s.log)
    && PastTerminal(s'.log) == PastTerminal(s.log)
    && (HasTerminal(s.log) ==> HasTerminal(s'.log))
    && (HasTerminal(s'.log) && !HasTerminal(s.log) ==>
          r == Failed({}) && s'.control.value.pinned.Some?)
    && (r.Ok? ==> s'.control.value.pinned == Some(r.value) && LastRun(s'.log).Some? &&
                  LastRun(s'.log).value.attempt == r.value &&
                  LastRun(s'.log).value.outcome.Launched? &&
                  LastRun(s'.log).value.outcome.instances > 0)
  }

  lemma SendKeeps(w: World, s0: State, s: State, a: Attempt, failed: set<string>)
    requires Inv(s0, failed) && Ready(s0) && Unresolved(s0.log).None? && a.token !in failed + Recorded(s0.log)
    requires s.log == s0.log + [BeforeCalled(a, true)]
    requires s.control == Some(s0.control.value.(pinned := Some(a)))
    ensures var (s', r) := Send(w, s, a); LaunchStep(s0, s', r, failed)
  {
    Snoc(s0.log, BeforeCalled(a, true));
    assert Legal(s.log, failed) && Justified(s.log);
    var o := w.run(s.log, a);
    Snoc(s.log, Ran(a, o));
    var sent := s.(log := s.log + [Ran(a, o)]);
    if o.Rejected? {
      SettleKeeps(w, sent, a, o, failed);
    }
  }

  lemma CreateServerKeeps(w: World, cfg: Config, s: State, region: string, serverType: string,
                          spot: bool, imageID: string, groupID: string, failed: set<string>)
    requires Inv(s, failed) && Ready(s)
    ensures var (s', r) := CreateServer(w, cfg, s, region, serverType, spot, imageID, groupID);
            LaunchStep(s, s', r, failed)
  {
    var a := MakeAttempt(w, cfg, s, region, serverType, spot, imageID, groupID);
    if w.prepare(s.log, a).None? {
      AdmitKeeps(w, s, a, failed);
      var (admitted, refused) := Admit(w, s, a);
      if refused.None? {
        SendKeeps(w, s, admitted, a, failed);
      }
    }
  }

  /** Noting how a try ended changes nothing the invariant speaks of. */
  lemma NotedTryKeeps(s: State, s': State, e: Event, r: Reply<Attempt, Err>, failed: set<string>)
    requires LaunchStep(s, s', r, failed) && e.Tried?
    ensures LaunchStep(s, s'.(log := s'.log + [e]), r, failed)
  {
    Snoc(s'.log, e);
  }

  lemma TryCreateKeeps(w: World, cfg: Config, s: State, site: Site, serverType: string, spot: bool,
                       failed: set<string>)
    requires Inv(s, failed) && Ready(s)
    ensures var (s', r) := TryCreate(w, cfg, s, site, serverType, spot); LaunchStep(s, s', r, failed)
  {
    var resolved := if site.image.Some? then Ok(site.image.value)
                    else w.image(s.log, site.region, serverType);
    if resolved.Ok? {
      CreateServerKeeps(w, cfg, s, site.region, serverType, spot, resolved.value, site.groupID, failed);
      var (s1, r) := CreateServer(w, cfg, s, site.region, serverType, spot, resolved.value, site.groupID);
      NotedTryKeeps(s, s1, Tried(serverType, spot, if r.Ok? then None else Some(r.error)), r, failed);
    } else {
      NotedTryKeeps(s, s, Tried(serverType, spot, Some(resolved.error)), Failed(resolved.error), failed);
    }
  }

  lemma {:induction false} TryAllKeeps(w: World, cfg: Config, s: State, site: Site, todo: seq<string>,
                                       spot: bool, errs: seq<Err>, fallback: seq<string>,
                                       failed: set<string>)
    requires Inv(s, failed) && Ready(s)
    ensures var (s', scan) := TryAll(w, cfg, s, site, todo, spot, errs, fallback);
            && Inv(s', failed) && LastKey(s'.log) == LastKey(s.log)
            && PastTerminal(s'.log) == PastTerminal(s.log)
            && (scan.Exhausted? ==> Ready(s'))
            && (scan.Stopped? && scan.result.Ok? ==> LaunchStep(s, s', scan.result, failed))
    decreases |todo|
  {
    if todo != [] {
      TryCreateKeeps(w, cfg, s, site, todo[0], spot, failed);
      var (s1, r) := TryCreate(w, cfg, s, site, todo[0], spot);
      if r.Failed? && Retryable(r.error) {
        var fallback' := if spot && MarketFallback(r.error) then fallback + [todo[0]] else fallback;
        TryAllKeeps(w, cfg, s1, site, todo[1..], spot, errs + [r.error], fallback', failed);
      }
    }
  }

  /** A launched server is the pinned attempt, and EC2 said it started. */
  predicate Success(s: State, a: Attempt) {
    && s.control.Some? && s.control.value.pinned == Some(a)
    && LastRun(s.log).Some? && LastRun(s.log).value.attempt == a
    && LastRun(s.log).value.outcome.Launched? && LastRun(s.log).value.outcome.instances > 0
  }

  lemma ProvisionKeeps(w: World, cfg: Config, s: State, region: string, candidates: seq<string>,
                       failed: set<string>)
    requires Inv(s, failed) && Ready(s)
    ensures var (s', r) := Provision(w, cfg, s, region, candidates);
            && Inv(s', failed) && LastKey(s'.log) == LastKey(s.log)
            && (r.Ok? && r.value.Some? ==> Success(s', r.value.value))
  {
    var image := w.staticImage(s.log, region);
    var group := w.group(s.log, region);
    if image.Ok? && group.Ok? {
      var site := Site(region, image.value, group.value);
      TryAllKeeps(w, cfg, s, site, candidates, cfg.spot, [], [], failed);
      var (s1, first) := TryAll(w, cfg, s, site, candidates, cfg.spot, [], []);
      if first.Exhausted? {
        TryAllKeeps(w, cfg, s1, site, first.fallback, false, first.errs, [], failed);
      }
    }
  }

  lemma RollbackKeeps(w: World, s: State, key: KeyBinding, e: Err, failed: set<string>)
    requires Inv(s, failed) && LastKey(s.log) == Some(key)
    requires key.managed ==> key.id != ""
    ensures Inv(Rollback(w, s, key, e).0, failed)
  {
    var c := s.control.value;
    var refused := w.deleteKey(s.log, key.id);
    Snoc(s.log, KeyDeleted(key.id, refused.None?));
    var s1 := s.(log := s.log + [KeyDeleted(key.id, refused.None?)]);
    assert Legal(s1.log, failed);
    assert c.pinned.None? || c.terminal ==> Justified(s1.log);
    if c.pinned.Some? {
      var unsaved := w.definite(s.log, c.pinned.value);
      Snoc(s.log, DefiniteCalled(c.pinned.value, unsaved.None?));
      var unsaved' := w.definite(s1.log, c.pinned.value);
      Snoc(s1.log, DefiniteCalled(c.pinned.value, unsaved'.None?));
    }
  }

  lemma RegionPassKeeps(w: World, cfg: Config, s: State, region: string, failed: set<string>)
    requires Inv(s, failed)
    ensures var (s', r) := RegionPass(w, cfg, s, region);
            Inv(s', failed) && (r.Ok? && r.value.Some? ==> Success(s', r.value.value))
  {
    Snoc(s.log, PassStarted(region));
    var s0 := s.(log := s.log + [PassStarted(region)]);
    assert Inv(s0, failed) && Ready(s0);
    var candidates := w.candidates(s0.log, region);
    var key := EnsureKeyBinding(w, s0.log);
    if candidates.Ok? && key.Ok? {
      Snoc(s0.log, KeyBound(key.value));
      var bound := BindKey(s0, key.value);
      ProvisionKeeps(w, cfg, bound, region, candidates.value, failed);
      var (s1, r) := Provision(w, cfg, bound, region, candidates.value);
      if r.Failed? {
        RollbackKeeps(w, s1, key.value, r.error, failed);
      }
    }
  }

  lemma {:induction false} SearchRegionsKeeps(w: World, cfg: Config, s: State, home: string,
                                              todo: seq<string>, errs: seq<Err>, failed: set<string>)
    requires Inv(s, failed)
    ensures var (s', r) := SearchRegions(w, cfg, s, home, todo, errs);
            Inv(s', failed) && (r.Ok? && r.value.Some? ==> Success(s', r.value.value))
    decreases |todo|
  {
    if todo != [] {
      var noClient := if todo[0] != home then w.client(s.log, todo[0]) else None;
      if noClient.Some? {
        SearchRegionsKeeps(w, cfg, s, home, todo[1..], errs + [noClient.value], failed);
      } else {
        RegionPassKeeps(w, cfg, s, todo[0], failed);
        var (s1, r) := RegionPass(w, cfg, s, todo[0]);
        if r.Failed? && ShouldRetryRegion(r.error, s1.control) {
          SearchRegionsKeeps(w, cfg, s1, home, todo[1..], errs + [r.error], failed);
        }
      }
    }
  }
}

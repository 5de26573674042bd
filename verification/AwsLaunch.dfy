/**
  The search for an EC2 launch: regions, then instance types, then the on-demand market.

  EC2, the account and the two durable callbacks of a fixed lease are oracles: each answers as an
  arbitrary function of everything that happened before, so one World is one behaviour of the
  environment and a statement for every World is a statement for every run.
 */
module AwsLaunch {
  import opened Common
  import opened AwsErrors

  /** What one RunInstances request is identified by. */
  datatype Attempt = Attempt(
    region: string, serverType: string, spot: bool, imageID: string, groupID: string,
    keyPairID: string, token: string)

  datatype RunOutcome =
    | Launched(instances: nat)
    | Rejected(code: string, error: Err)

  datatype KeyBinding = KeyBinding(id: string, managed: bool, created: bool)

  datatype Event =
    | PassStarted(region: string)
    | KeyBound(binding: KeyBinding)
    | BeforeCalled(attempt: Attempt, ok: bool)
    | Ran(attempt: Attempt, outcome: RunOutcome)
    | DefiniteCalled(attempt: Attempt, ok: bool)
    | KeyDeleted(id: string, ok: bool)
    | Tried(serverType: string, spot: bool, error: Option<Err>)

  type Log = seq<Event>

  /** The caller's record of a fixed lease. */
  datatype Control = Control(
    keyPairID: string, pinned: Option<Attempt>, terminal: bool,
    failedTokens: set<string>, hasBefore: bool, hasDefinite: bool)

  /** What one call can see and change: the history and, for a fixed lease, its control. */
  datatype State = State(log: Log, control: Option<Control>)

  datatype DescribeKey =
    | KeyMissing
    | KeyUnreadable(readError: Err)
    | KeyMismatch(mismatch: Err)
    | KeyForeign
    | KeyOwned(id: string)

  datatype World = World(
    client: (Log, string) -> Option<Err>,
    candidates: (Log, string) -> Reply<seq<string>, Err>,
    describeKey: Log -> DescribeKey,
    importKey: Log -> Reply<string, Err>,
    staticImage: (Log, string) -> Reply<Option<string>, Err>,
    group: (Log, string) -> Reply<string, Err>,
    image: (Log, string, string) -> Reply<string, Err>,
    token: (string, string, bool, string, string) -> string,
    prepare: (Log, Attempt) -> Option<Err>,
    before: (Log, Attempt) -> Option<Err>,
    run: (Log, Attempt) -> RunOutcome,
    definite: (Log, Attempt) -> Option<Err>,
    deleteKey: (Log, string) -> Option<Err>)

  datatype Config = Config(
    leaseID: string, region: string, spot: bool, onDemandFallback: bool, typeExplicit: bool)

  predicate TerminallyRejected(o: RunOutcome) {
    o.Rejected? && o.code in TerminalCodes
  }

  /** EC2 refused the launch for good: no instance came of it. */
  predicate DefinitelyRejected(o: RunOutcome) {
    TerminallyRejected(o) || (o.Rejected? && Retryable(o.error))
  }

  // ----- one launch -----

  /** A terminal rejection is reported by its code alone, which names no retryable condition. */
  function ReportedError(o: RunOutcome): (e: Err)
    requires o.Rejected?
    ensures Retryable(e) ==> DefinitelyRejected(o) && !TerminallyRejected(o)
  {
    if TerminallyRejected(o) then {} else o.error
  }

  function MakeAttempt(w: World, cfg: Config, s: State, region: string, serverType: string,
                       spot: bool, imageID: string, groupID: string): Attempt
  {
    if s.control.Some? then
      Attempt(region, serverType, spot, imageID, groupID, s.control.value.keyPairID,
              w.token(region, serverType, spot, imageID, groupID))
    else
      Attempt(region, serverType, spot, imageID, groupID, "", cfg.leaseID)
  }

  /** The durable gate before the request: the attempt becomes the pinned one, or nothing is sent. */
  function Admit(w: World, s: State, a: Attempt): (State, Option<Err>) {
    if s.control.None? then (s, None) else
    var c := s.control.value;
    if a.token in c.failedTokens then (s, Some({InsufficientInstanceCapacity}))
    else if c.pinned.Some? then (s, Some({}))
    else if !c.hasBefore then (s, None)
    else
      var refused := w.before(s.log, a);
      var log := s.log + [BeforeCalled(a, refused.None?)];
      if refused.Some? then (State(log, s.control), refused)
      else (State(log, Some(c.(pinned := Some(a)))), None)
  }

  /** A recorded failure clears the attempt and, unless the flag makes it the end of the lease, adds its token to
      those known to have failed. */
  function Resolved(c: Control, a: Attempt): Control {
    c.(pinned := None, failedTokens := if c.terminal then c.failedTokens else c.failedTokens + {a.token})
  }

  /** What follows a rejected request. */
  function Settle(w: World, s: State, a: Attempt, o: RunOutcome): (State, Err)
    requires o.Rejected?
  {
    var e := ReportedError(o);
    if s.control.None? then (s, e) else
    var c := if TerminallyRejected(o) then s.control.value.(terminal := true) else s.control.value;
    if Retryable(e) && c.hasDefinite then
      var refused := w.definite(s.log, a);
      var log := s.log + [DefiniteCalled(a, refused.None?)];
      if refused.Some? then (State(log, Some(c)), e + refused.value)
      else (State(log, Some(Resolved(c, a))), e)
    else (State(s.log, Some(c)), e)
  }

  function Send(w: World, s: State, a: Attempt): (State, Reply<Attempt, Err>) {
    var o := w.run(s.log, a);
    var sent := s.(log := s.log + [Ran(a, o)]);
    match o
    case Launched(n) => (sent, if n == 0 then Failed({}) else Ok(a))
    case Rejected(_, _) =>
      var (s', e) := Settle(w, sent, a, o);
      (s', Failed(e))
  }

  function CreateServer(w: World, cfg: Config, s: State, region: string, serverType: string,
                        spot: bool, imageID: string, groupID: string): (State, Reply<Attempt, Err>)
  {
    var a := MakeAttempt(w, cfg, s, region, serverType, spot, imageID, groupID);
    var unprepared := w.prepare(s.log, a);
    if unprepared.Some? then (s, Failed(unprepared.value)) else
    var (admitted, refused) := Admit(w, s, a);
    if refused.Some? then (admitted, Failed(refused.value)) else
    Send(w, admitted, a)
  }

  // ----- one region -----

  datatype Site = Site(region: string, image: Option<string>, groupID: string)

  function TryCreate(w: World, cfg: Config, s: State, site: Site, serverType: string, spot: bool)
    : (State, Reply<Attempt, Err>)
  {
    var resolved := if site.image.Some? then Ok(site.image.value)
                    else w.image(s.log, site.region, serverType);
    var (s', r) := if resolved.Failed? then (s, Failed(resolved.error)) else
                     CreateServer(w, cfg, s, site.region, serverType, spot, resolved.value, site.groupID);
    (s'.(log := s'.log + [Tried(serverType, spot, if r.Ok? then None else Some(r.error))]), r)
  }

  datatype Scan =
    | Stopped(result: Reply<Attempt, Err>)
    | Exhausted(errs: seq<Err>, fallback: seq<string>)

  /** Tries the candidates in turn until one is launched or fails for good. */
  function TryAll(w: World, cfg: Config, s: State, site: Site, todo: seq<string>, spot: bool,
                  errs: seq<Err>, fallback: seq<string>): (State, Scan)
    decreases |todo|
  {
    if todo == [] then (s, Exhausted(errs, fallback)) else
    var (s', r) := TryCreate(w, cfg, s, site, todo[0], spot);
    if r.Ok? then (s', Stopped(r)) else
    var errs' := errs + [r.error];
    if !Retryable(r.error) then (s', Stopped(Failed(Union(errs')))) else
    TryAll(w, cfg, s', site, todo[1..], spot, errs',
           if spot && MarketFallback(r.error) then fallback + [todo[0]] else fallback)
  }

  /** The error after every candidate was refused; none at all when there was no candidate. */
  function ExhaustedError(cfg: Config, errs: seq<Err>): Option<Err> {
    if cfg.typeExplicit then Some({InstanceTypePhrase, QuotaWord} + Union(errs)) else JoinErrors(errs)
  }

  /** Success without an attempt is the program's answer to an empty candidate list. */
  function SearchMarkets(w: World, cfg: Config, s: State, site: Site, candidates: seq<string>)
    : (State, Reply<Option<Attempt>, Err>)
  {
    var (s1, first) := TryAll(w, cfg, s, site, candidates, cfg.spot, [], []);
    if first.Stopped? then (s1, Lift(first.result)) else
    var (s2, second) := if first.fallback != [] && cfg.onDemandFallback
                        then TryAll(w, cfg, s1, site, first.fallback, false, first.errs, [])
                        else (s1, first);
    if second.Stopped? then (s2, Lift(second.result)) else
    var e := ExhaustedError(cfg, second.errs);
    (s2, if e.Some? then Failed(e.value) else Ok(None))
  }

  function Lift(r: Reply<Attempt, Err>): Reply<Option<Attempt>, Err> {
    if r.Ok? then Ok(Some(r.value)) else Failed(r.error)
  }

  /** Describe, then import: only a key pair this program created or tagged is managed. */
  function EnsureKeyBinding(w: World, log: Log): (r: Reply<KeyBinding, Err>)
    ensures r.Ok? && r.value.managed ==> r.value.id != ""
    ensures r.Ok? ==> (r.value.created <==> w.describeKey(log).KeyMissing?)
    ensures r.Ok? && r.value.created ==> r.value.managed
  {
    match w.describeKey(log)
    case KeyUnreadable(e) => Failed(e)
    case KeyMismatch(e) => Failed(e)
    case KeyForeign => Ok(KeyBinding("", false, false))
    case KeyOwned(id) => Ok(KeyBinding(id, id != "", false))
    case KeyMissing =>
      var imported := w.importKey(log);
      if imported.Failed? then Failed(imported.error)
      else if imported.value == "" then Failed({})
      else Ok(KeyBinding(imported.value, true, true))
  }

  /** The deferred rollback of a failed region. */
  function Rollback(w: World, s: State, key: KeyBinding, e: Err): (State, Err) {
    var terminal := s.control.Some? && s.control.value.terminal && s.control.value.pinned.Some?;
    var cleanup := (key.created && (s.control.None? || s.control.value.pinned.None?)) ||
                   (terminal && key.managed);
    var refused := if cleanup && key.id != "" then w.deleteKey(s.log, key.id) else None;
    var s1 := if cleanup && key.id != "" then s.(log := s.log + [KeyDeleted(key.id, refused.None?)]) else s;
    if refused.Some? then (s1, e + refused.value)
    else if terminal && s.control.value.hasDefinite then
      var c := s.control.value;
      var unsaved := w.definite(s1.log, c.pinned.value);
      var log := s1.log + [DefiniteCalled(c.pinned.value, unsaved.None?)];
      if unsaved.Some? then (State(log, s.control), e + unsaved.value)
      else (State(log, Some(c.(pinned := None))), e)
    else (s1, e)
  }

  function BindKey(s: State, key: KeyBinding): State {
    State(s.log + [KeyBound(key)],
          if s.control.Some? then Some(s.control.value.(keyPairID := key.id)) else None)
  }

  /** The part of a region pass that the rollback covers. */
  function Provision(w: World, cfg: Config, s: State, region: string, candidates: seq<string>)
    : (State, Reply<Option<Attempt>, Err>)
  {
    var image := w.staticImage(s.log, region);
    if image.Failed? then (s, Failed(image.error)) else
    var group := w.group(s.log, region);
    if group.Failed? then (s, Failed(group.error)) else
    SearchMarkets(w, cfg, s, Site(region, image.value, group.value), candidates)
  }

  function RegionPass(w: World, cfg: Config, s: State, region: string)
    : (State, Reply<Option<Attempt>, Err>)
  {
    var s0 := s.(log := s.log + [PassStarted(region)]);
    var candidates := w.candidates(s0.log, region);
    if candidates.Failed? then (s0, Failed(candidates.error)) else
    var key := EnsureKeyBinding(w, s0.log);
    if key.Failed? then (s0, Failed(key.error)) else
    var (s1, r) := Provision(w, cfg, BindKey(s0, key.value), region, candidates.value);
    if r.Ok? then (s1, r) else
    var (s2, e) := Rollback(w, s1, key.value, r.error);
    (s2, Failed(e))
  }

  // ----- all regions -----

  predicate ShouldRetryRegion(e: Err, control: Option<Control>) {
    (control.None? || control.value.pinned.None?) && RegionRetryable(e)
  }

  function SearchRegions(w: World, cfg: Config, s: State, home: string, todo: seq<string>, errs: seq<Err>)
    : (State, Reply<Option<Attempt>, Err>)
    decreases |todo|
  {
    if todo == [] then
      (s, if JoinErrors(errs).Some? then Failed(JoinErrors(errs).value) else Ok(None))
    else
      var noClient := if todo[0] != home then w.client(s.log, todo[0]) else None;
      if noClient.Some? then SearchRegions(w, cfg, s, home, todo[1..], errs + [noClient.value]) else
      var (s', r) := RegionPass(w, cfg, s, todo[0]);
      if r.Ok? then (s', r) else
      var errs' := errs + [r.error];
      if !ShouldRetryRegion(r.error, s'.control) then (s', Failed(Union(errs'))) else
      SearchRegions(w, cfg, s', home, todo[1..], errs')
  }

  /** The whole search.  `regions` is the deduplicated candidate list, `home` the client's region. */
  function CreateServerWithFallback(w: World, cfg: Config, s: State, home: string, regions: seq<string>)
    : (State, Reply<Option<Attempt>, Err>)
  {
    if s.control.Some? && s.control.value.pinned.Some? then (s, Failed({}))
    else if |regions| > 1 then SearchRegions(w, cfg, s, home, regions, [])
    else RegionPass(w, cfg, s, cfg.region)
  }
}

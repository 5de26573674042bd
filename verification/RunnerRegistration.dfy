/**
  Registering a GitHub Actions runner for one lease: the durable claim, the guest's settings file, the
  guest's listener and boot service, and GitHub.  Calls run one at a time under the claim lock, but a
  call can stop anywhere (a crash, a cancelled context, a lost acknowledgement, any error return), and
  the guest and GitHub act on their own between any two steps.
 */
module RunnerRegistration {
  import opened Common

  // ----- identities -----

  datatype Scope = Repos(owner: string, repo: string) | Orgs(org: string)

  predicate Word(text: string) {
    text != "" && '/' !in text
  }

  /** The scope pattern, as far as it matters here: parts are non-empty and hold no slash. */
  predicate ValidScope(scope: Scope) {
    match scope
    case Repos(owner, repo) => Word(owner) && Word(repo)
    case Orgs(org) => Word(org)
  }

  function URL(scope: Scope): string {
    match scope
    case Repos(owner, repo) => "https://github.com/" + owner + "/" + repo
    case Orgs(org) => "https://github.com/" + org
  }

  datatype Binding = Binding(
    scope: Scope, id: nat, name: string, group: string, ephemeral: bool, lease: string)

  datatype Settings = Settings(id: nat, name: string, url: string, group: string, ephemeral: bool)

  /** A registration that GitHub lists with this lease's label. */
  datatype Registration = Registration(scope: Scope, id: nat, name: string)

  datatype Request = Request(
    scope: Scope, name: string, group: string, ephemeral: bool, lease: string)

  predicate SettingsMatch(settings: Settings, binding: Binding) {
    && settings.id == binding.id && settings.name == binding.name
    && settings.url == URL(binding.scope) && settings.group == binding.group
    && settings.ephemeral == binding.ephemeral
  }

  predicate SettingsFit(settings: Settings, req: Request) {
    && settings.url == URL(req.scope) && settings.name == req.name
    && settings.ephemeral == req.ephemeral && (req.group != "" ==> settings.group == req.group)
  }

  predicate BindingFits(binding: Binding, req: Request) {
    && binding.lease == req.lease && binding.scope == req.scope && binding.name == req.name
    && binding.ephemeral == req.ephemeral && (req.group != "" ==> binding.group == req.group)
  }

  function BindingFor(settings: Settings, req: Request): Binding {
    Binding(req.scope, settings.id, settings.name, settings.group, settings.ephemeral, req.lease)
  }

  // ----- the system -----

  datatype Point =
    | Idle
    | Begun | Inspected | Owned | Saved
    | Absent | Disabled | Cleared | Settling | Confirmed | Verified | Recorded | Unsaved | Enabled
    | Unregistering

  /** The call in progress: its request, the binding it works on, and what its first look at the guest saw. */
  datatype Call = Call(at: Point, req: Request, binding: Option<Binding>, active: bool, configured: bool)

  datatype State = State(
    claim: Option<Binding>,
    settings: Option<Settings>,
    listener: bool,
    service: bool,
    live: set<Registration>,
    nextID: nat,
    call: Call)

  datatype Action =
    | BeginRegister(req: Request) | Inspect | CheckPresent | SaveOwned
    | DisableService | RemoveSettings | Install(took: bool, group: string) | Confirm | Verify
    | Record | RecordFails(took: bool) | RollBack | EnableService | StartListener
    | BeginUnregister | Delete
    | Abort
    // the guest and GitHub
    | Vanish(registration: Registration) | Stop | Boot | Forget

  function Named(binding: Binding): Registration {
    Registration(binding.scope, binding.id, binding.name)
  }

  /** The settings file names this registration. */
  predicate Names(settings: Settings, r: Registration) {
    settings.id == r.id && settings.url == URL(r.scope)
  }

  function At(s: State, at: Point): State {
    s.(call := s.call.(at := at))
  }

  /** GitHub's answer about one identity; it never lists two registrations under one id. */
  predicate ListedID(s: State, binding: Binding) {
    exists r | r in s.live :: r.scope == binding.scope && r.id == binding.id
  }

  /** What the first look at the guest makes of the claim; None when the call must stop. */
  function Adopted(s: State, req: Request): Option<Option<Binding>> {
    match s.settings
    case None => if s.listener then None else Some(s.claim)
    case Some(settings) =>
      match s.claim
      case None => if SettingsFit(settings, req) then Some(Some(BindingFor(settings, req))) else None
      case Some(binding) => if SettingsMatch(settings, binding) then Some(s.claim) else None
  }

  /** Inspecting and reusing an existing registration. */
  function Reuse(s: State, action: Action): Option<State> {
    var call := s.call;
    match action
    case BeginRegister(req) =>
      if call.at == Idle && ValidScope(req.scope) then Some(s.(call := Call(Begun, req, None, false, false))) else None
    case Inspect =>
      if call.at != Begun then None else
      var adopted := Adopted(s, call.req);
      if adopted.None? then None
      else Some(s.(call := call.(at := Inspected, binding := adopted.value, active := s.listener,
                                 configured := s.settings.Some?)))
    case CheckPresent =>
      if call.at != Inspected then None
      else if call.binding.None? then Some(At(s, Absent))
      else if !ListedID(s, call.binding.value) then (if call.active then None else Some(At(s, Absent)))
      else if Named(call.binding.value) in s.live && call.configured && BindingFits(call.binding.value, call.req)
      then Some(At(s, Owned))
      else None
    case SaveOwned =>
      if call.at == Owned then Some(At(s.(claim := call.binding), Saved)) else None
    case _ => None
  }

  /** Replacing a registration that GitHub no longer lists. */
  function Renew(s: State, action: Action): Option<State> {
    var call := s.call;
    match action
    case DisableService =>
      // the script first checks that the settings are still the ones it expects
      if call.at == Absent &&
         (s.settings.None? || (call.binding.Some? && s.settings.value.id == call.binding.value.id))
      then Some(At(s.(service := false), Disabled)) else None
    case RemoveSettings =>
      if call.at == Disabled then Some(At(s.(settings := None), Cleared)) else None
    case Install(took, group) =>
      if call.at != Cleared || s.settings.Some? then None
      else if !took then Some(At(s, Settling))
      else
        Some(At(s.(live := s.live + {Registration(call.req.scope, s.nextID, call.req.name)}, nextID := s.nextID + 1,
                   settings := Some(Settings(s.nextID, call.req.name, URL(call.req.scope), group, call.req.ephemeral))),
                Settling))
    case Confirm =>
      if call.at == Settling && s.settings.Some? && !s.listener && SettingsFit(s.settings.value, call.req)
      then Some(s.(call := call.(at := Confirmed, binding := Some(BindingFor(s.settings.value, call.req))))) else None
    case Verify =>
      if call.at == Confirmed && call.binding.Some? && Named(call.binding.value) in s.live
      then Some(At(s, Verified)) else None
    case _ => None
  }

  /** Deleting a registration: nothing to do if GitHub lists none under its id, refused if it lists another one. */
  function Deleted(s: State, binding: Binding): Option<State> {
    if !ListedID(s, binding) then Some(s)
    else if Named(binding) in s.live then Some(s.(live := s.live - {Named(binding)}))
    else None
  }

  /** Making it durable, and only then starting the listener. */
  function Activate(s: State, action: Action): Option<State> {
    var call := s.call;
    match action
    case Record =>
      if call.at == Verified then Some(At(s.(claim := call.binding), Recorded)) else None
    case RecordFails(took) =>
      if call.at == Verified then Some(At(if took then s.(claim := call.binding) else s, Unsaved)) else None
    case RollBack =>
      if call.at != Unsaved || call.binding.None? then None else
      var deleted := Deleted(s, call.binding.value);
      if deleted.Some? then Some(At(deleted.value, Idle)) else None
    case EnableService =>
      if call.at == Recorded || (call.at == Saved && !call.active)
      then Some(At(s.(service := true), Enabled)) else None
    case StartListener =>
      if call.at == Enabled then Some(At(s.(listener := true), Idle)) else None
    case BeginUnregister =>
      if call.at == Idle && s.claim.Some?
      then Some(s.(call := call.(at := Unregistering, binding := s.claim))) else None
    case Delete =>
      if call.at != Unregistering || call.binding.None? then None else
      var deleted := Deleted(s, call.binding.value);
      if deleted.Some? then Some(At(deleted.value, Idle)) else None
    case _ => None
  }

  /** The guest and GitHub, at any time; and the end of a call, anywhere. */
  function Outside(s: State, action: Action): Option<State> {
    match action
    case Abort => Some(At(s, Idle))
    case Vanish(r) => Some(s.(live := s.live - {r}))
    case Stop => Some(s.(listener := false))
    case Boot => if s.service then Some(s.(listener := true)) else None
    case Forget =>
      // an ephemeral runner removes its own settings once its registration is consumed
      if s.settings.Some? && forall r | r in s.live :: !Names(s.settings.value, r)
      then Some(s.(settings := None)) else None
    case _ => None
  }

  function Apply(s: State, action: Action): Option<State> {
    match action
    case Abort | Vanish(_) | Stop | Boot | Forget => Outside(s, action)
    case BeginRegister(_) | Inspect | CheckPresent | SaveOwned => Reuse(s, action)
    case DisableService | RemoveSettings | Install(_, _) | Confirm | Verify => Renew(s, action)
    case _ => Activate(s, action)
  }

  // ----- who knows of a live registration -----

  predicate Known(s: State, r: Registration) {
    || (s.claim.Some? && s.claim.value.scope == r.scope && s.claim.value.id == r.id)
    || (s.settings.Some? && Names(s.settings.value, r))
  }

  predicate ValidBinding(binding: Binding, nextID: nat) {
    ValidScope(binding.scope) && binding.id < nextID
  }

  /** The registration the call works on is the only one there can be. */
  predicate OnlyThis(s: State) {
    s.call.binding.Some? && forall r | r in s.live ::
      r.scope == s.call.binding.value.scope && r.id == s.call.binding.value.id
  }

  /** Custody: every live registration is named by the durable claim or the guest, and there is at most one. */
  predicate Custody(s: State) {
    && (forall r | r in s.live :: Known(s, r))
    && (forall r, r' | r in s.live && r' in s.live :: r == r')
  }

  predicate WellFormed(s: State) {
    && (forall r | r in s.live :: ValidScope(r.scope) && r.id < s.nextID)
    && (s.claim.Some? ==> ValidBinding(s.claim.value, s.nextID))
    && (s.settings.Some? ==> s.settings.value.id < s.nextID)
    && (s.call.binding.Some? ==> ValidBinding(s.call.binding.value, s.nextID))
    && (s.call.at != Idle && s.call.at != Unregistering ==> ValidScope(s.call.req.scope))
  }

  /** What the call in progress has established about live registrations. */
  predicate Progress(s: State) {
    var at := s.call.at;
    && (at == Inspected || at == Owned ==>
          if s.call.binding.None? then s.live == {} else OnlyThis(s))
    && (at == Owned ==> s.call.binding.Some?)
    && (at == Absent || at == Disabled || at == Cleared ==> s.live == {})
    && (at == Settling ==> forall r | r in s.live :: s.settings.Some? && Names(s.settings.value, r))
    && (at == Confirmed || at == Verified || at == Unsaved || at == Recorded ==> OnlyThis(s))
  }

  predicate Inv(s: State) {
    WellFormed(s) && Custody(s) && Progress(s)
  }

  // ----- a URL names one scope -----

  function BeforeSlash(text: string): string {
    if text == "" || text[0] == '/' then "" else [text[0]] + BeforeSlash(text[1..])
  }

  lemma {:induction false} BeforeSlashIsOwner(owner: string, repo: string)
    requires '/' !in owner
    ensures BeforeSlash(owner + "/" + repo) == owner
  {
    var all := owner + "/" + repo;
    if owner == "" {
      assert all[0] == '/';
    } else {
      assert all[0] == owner[0] && all[1..] == owner[1..] + "/" + repo;
      BeforeSlashIsOwner(owner[1..], repo);
    }
  }

  function Path(scope: Scope): string {
    if scope.Repos? then scope.owner + "/" + scope.repo else scope.org
  }

  lemma PathNamesScope(scope: Scope)
    requires ValidScope(scope)
    ensures URL(scope)[|"https://github.com/"|..] == Path(scope)
    ensures '/' in Path(scope) <==> scope.Repos?
    ensures scope.Repos? ==> scope.owner == BeforeSlash(Path(scope)) &&
                             scope.repo == Path(scope)[|BeforeSlash(Path(scope))| + 1..]
  {
    if scope.Repos? {
      assert Path(scope)[|scope.owner|] == '/';
      BeforeSlashIsOwner(scope.owner, scope.repo);
      assert URL(scope) == "https://github.com/" + Path(scope);
    }
  }

  /** Distinct valid scopes have distinct URLs, so matching a URL is matching a scope. */
  lemma URLNamesScope(x: Scope, y: Scope)
    requires ValidScope(x) && ValidScope(y) && URL(x) == URL(y)
    ensures x == y
  {
    PathNamesScope(x);
    PathNamesScope(y);
  }

  lemma NamesIsExact(settings: Settings, scope: Scope, r: Registration)
    requires settings.url == URL(scope) && ValidScope(scope) && ValidScope(r.scope)
    ensures Names(settings, r) <==> r.id == settings.id && r.scope == scope
  {
    if Names(settings, r) {
      URLNamesScope(scope, r.scope);
    }
  }

  // ----- every step keeps custody -----

  lemma OutsideKeeps(s: State, action: Action)
    requires Inv(s) && Outside(s, action).Some?
    ensures Inv(Outside(s, action).value)
  {
  }

  lemma InspectKeeps(s: State)
    requires Inv(s) && Reuse(s, Inspect).Some?
    ensures Inv(Reuse(s, Inspect).value)
  {
    var s' := Reuse(s, Inspect).value;
    forall r | r in s.live
      ensures s'.call.binding.Some? && r.scope == s'.call.binding.value.scope && r.id == s'.call.binding.value.id
    {
      assert Known(s, r);
      if s.settings.Some? {
        NamesIsExact(s.settings.value, s'.call.binding.value.scope, r);
      }
    }
  }

  /** If GitHub does not list the only possible registration, it lists none. */
  lemma UnlistedMeansNone(s: State)
    requires OnlyThis(s) && !ListedID(s, s.call.binding.value)
    ensures s.live == {}
  {
  }

  lemma CheckPresentKeeps(s: State)
    requires Inv(s) && Reuse(s, CheckPresent).Some?
    ensures Inv(Reuse(s, CheckPresent).value)
  {
    if s.call.binding.Some? && !ListedID(s, s.call.binding.value) {
      UnlistedMeansNone(s);
      assert Reuse(s, CheckPresent).value == At(s, Absent);
    }
  }

  lemma ReuseKeeps(s: State, action: Action)
    requires Inv(s) && Reuse(s, action).Some?
    ensures Inv(Reuse(s, action).value)
  {
    match action
    case Inspect => InspectKeeps(s);
    case CheckPresent => CheckPresentKeeps(s);
    case _ =>
  }

  lemma ConfirmKeeps(s: State)
    requires Inv(s) && Renew(s, Confirm).Some?
    ensures Inv(Renew(s, Confirm).value)
  {
    var s' := Renew(s, Confirm).value;
    forall r | r in s.live
      ensures r.scope == s'.call.binding.value.scope && r.id == s'.call.binding.value.id
    {
      NamesIsExact(s.settings.value, s.call.req.scope, r);
    }
  }

  /** The new registration is the only one, and the guest names it from the start. */
  lemma InstallKeeps(s: State, took: bool, group: string)
    requires Inv(s) && Renew(s, Install(took, group)).Some?
    ensures Inv(Renew(s, Install(took, group)).value)
  {
  }

  lemma RenewKeeps(s: State, action: Action)
    requires Inv(s) && Renew(s, action).Some?
    ensures Inv(Renew(s, action).value)
  {
    match action
    case Confirm => ConfirmKeeps(s);
    case Install(took, group) => InstallKeeps(s, took, group);
    case _ =>
  }

  lemma DeletingKeeps(s: State, binding: Binding)
    requires Inv(s) && Deleted(s, binding).Some?
    ensures Inv(At(Deleted(s, binding).value, Idle))
  {
  }

  lemma StartingKeeps(s: State, action: Action)
    requires Inv(s) && Activate(s, action).Some? && action != Delete && action != RollBack
    ensures Inv(Activate(s, action).value)
  {
  }

  lemma ActivateKeeps(s: State, action: Action)
    requires Inv(s) && Activate(s, action).Some?
    ensures Inv(Activate(s, action).value)
  {
    if action == Delete || action == RollBack {
      DeletingKeeps(s, s.call.binding.value);
    } else {
      StartingKeeps(s, action);
    }
  }

  lemma StepKeepsCustody(s: State, action: Action)
    requires Inv(s) && Apply(s, action).Some?
    ensures Inv(Apply(s, action).value)
  {
    match action
    case Abort | Vanish(_) | Stop | Boot | Forget => OutsideKeeps(s, action);
    case BeginRegister(_) | Inspect | CheckPresent | SaveOwned => ReuseKeeps(s, action);
    case DisableService | RemoveSettings | Install(_, _) | Confirm | Verify => RenewKeeps(s, action);
    case _ => ActivateKeeps(s, action);
  }
}

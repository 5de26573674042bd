/** The listener and its boot service: they run only for the registration that the durable claim names. */
module RunnerActivation {
  import opened Common
  import opened RunnerRegistration

  predicate Agrees(s: State, binding: Option<Binding>) {
    s.settings.None? || (binding.Some? && SettingsMatch(s.settings.value, binding.value))
  }

  /** Whenever a listener runs or would start at boot, the guest's settings are absent or the claim's. */
  predicate Fit(s: State) {
    s.listener || s.service ==> Agrees(s, s.claim)
  }

  /** What the call in progress has established about settings, claim and service. */
  predicate Prepared(s: State) {
    var at := s.call.at;
    && (at == Inspected || at == Owned ==> Agrees(s, s.call.binding))
    && (at == Inspected && s.call.binding.None? ==> !s.call.active)
    && (at == Saved || at == Recorded || at == Enabled ==> Agrees(s, s.claim))
    && (at == Disabled || at == Cleared || at == Settling ==> !s.service)
    && (at == Cleared ==> s.settings.None?)
    && (at == Confirmed || at == Verified || at == Unsaved ==> !s.listener && !s.service && Agrees(s, s.call.binding))
  }

  lemma ReuseStep(s: State, action: Action)
    requires Prepared(s) && Fit(s) && Reuse(s, action).Some?
    ensures var s' := Reuse(s, action).value; Prepared(s') && Fit(s')
  {
  }

  lemma RenewStep(s: State, action: Action)
    requires Prepared(s) && Fit(s) && Renew(s, action).Some? && !action.Install?
    ensures var s' := Renew(s, action).value; Prepared(s') && Fit(s')
  {
  }

  lemma ActivateStep(s: State, action: Action)
    requires Prepared(s) && Fit(s) && Activate(s, action).Some?
    ensures var s' := Activate(s, action).value; Prepared(s') && Fit(s')
  {
  }

  lemma OutsideStep(s: State, action: Action)
    requires Prepared(s) && Fit(s) && Outside(s, action).Some?
    ensures var s' := Outside(s, action).value; Prepared(s') && Fit(s')
  {
  }

  /** The only step that can break it, and exactly when: a configuration that takes effect while a
      listener is running. */
  lemma BreaksExactlyAtInstall(s: State, action: Action)
    requires Inv(s) && Prepared(s) && Fit(s) && Apply(s, action).Some?
    ensures var s' := Apply(s, action).value;
            Prepared(s') && (Fit(s') <==> !(action.Install? && action.took && s.listener))
  {
    match action
    case Abort | Vanish(_) | Stop | Boot | Forget => OutsideStep(s, action);
    case BeginRegister(_) | Inspect | CheckPresent | SaveOwned => ReuseStep(s, action);
    case Install(_, _) =>
    case DisableService | RemoveSettings | Confirm | Verify => RenewStep(s, action);
    case _ => ActivateStep(s, action);
  }

  // ----- when no guest boot falls between the inspection and the clearing -----

  /** The guest does not boot while a call that saw the listener stopped has not yet disabled the service. */
  predicate Calm(s: State, action: Action) {
    action == Boot ==> s.call.at != Inspected && s.call.at != Absent
  }

  predicate Quiet(s: State) {
    var at := s.call.at;
    && (at == Inspected && !s.call.active ==> !s.listener)
    && (at == Absent || at == Disabled || at == Cleared || at == Settling ==> !s.listener)
  }

  lemma CalmStepStaysQuiet(s: State, action: Action)
    requires Prepared(s) && Quiet(s) && Calm(s, action) && Apply(s, action).Some?
    ensures Quiet(Apply(s, action).value)
  {
  }

  /** Without such a boot no step breaks it. */
  lemma CalmStepKeepsFit(s: State, action: Action)
    requires Inv(s) && Prepared(s) && Fit(s) && Quiet(s) && Calm(s, action) && Apply(s, action).Some?
    ensures var s' := Apply(s, action).value; Prepared(s') && Fit(s') && Quiet(s')
  {
    BreaksExactlyAtInstall(s, action);
    CalmStepStaysQuiet(s, action);
    assert action.Install? ==> s.call.at == Cleared;
  }

  // ----- whole runs -----

  predicate Init(s: State) {
    WellFormed(s) && Custody(s) && Fit(s) && s.call.at == Idle
  }

  ghost predicate StepAt(states: seq<State>, actions: seq<Action>, i: nat) {
    i < |actions| && i + 1 < |states| && Apply(states[i], actions[i]) == Some(states[i + 1])
  }

  ghost predicate Run(states: seq<State>, actions: seq<Action>) {
    && |states| == |actions| + 1 && Init(states[0])
    && forall i: nat | i < |actions| :: StepAt(states, actions, i)
  }

  /** In every run of register and unregister, with calls stopping anywhere and acknowledgements lost,
      every live registration of the lease is named by the durable claim or by the guest, and there is
      never more than one. */
  lemma {:induction false} RegistrationsStayInCustody(states: seq<State>, actions: seq<Action>, i: nat)
    requires Run(states, actions) && i < |states|
    ensures Inv(states[i]) && Custody(states[i])
  {
    if i > 0 {
      assert StepAt(states, actions, i - 1);
      RegistrationsStayInCustody(states, actions, i - 1);
      StepKeepsCustody(states[i - 1], actions[i - 1]);
    }
  }

  /** In every calm run, a listener or boot service serves the claimed registration or none. */
  lemma {:induction false} ListenerServesTheClaim(states: seq<State>, actions: seq<Action>, i: nat)
    requires Run(states, actions) && i < |states|
    requires forall k: nat | k < i :: Calm(states[k], actions[k])
    ensures Fit(states[i]) && Prepared(states[i]) && Quiet(states[i])
  {
    if i > 0 {
      assert StepAt(states, actions, i - 1);
      ListenerServesTheClaim(states, actions, i - 1);
      RegistrationsStayInCustody(states, actions, i - 1);
      CalmStepKeepsFit(states[i - 1], actions[i - 1]);
    }
  }

  /** The guest is configured anew while a listener runs. */
  predicate InstallsUnderListener(s: State, action: Action) {
    action.Install? && action.took && s.listener
  }

  lemma StepStaysFit(s: State, action: Action, s': State)
    requires Inv(s) && Prepared(s) && Fit(s) && Apply(s, action) == Some(s')
    ensures Prepared(s') && (Fit(s') <==> !InstallsUnderListener(s, action))
  {
    BreaksExactlyAtInstall(s, action);
  }

  /** No configuration under a running listener among the first steps. */
  ghost predicate NoneUnderListener(states: seq<State>, actions: seq<Action>, i: nat) {
    forall k: nat | k < i && k < |states| && k < |actions| :: !InstallsUnderListener(states[k], actions[k])
  }

  lemma {:induction false} FitSoFar(states: seq<State>, actions: seq<Action>, i: nat)
    requires Run(states, actions) && i < |states| && NoneUnderListener(states, actions, i)
    ensures Fit(states[i]) && Prepared(states[i])
  {
    if i == 0 {
      InitIsFit(states[0]);
    } else {
      FitSoFar(states, actions, i - 1);
      RegistrationsStayInCustody(states, actions, i - 1);
      assert !InstallsUnderListener(states[i - 1], actions[i - 1]);
      FitAt(states, actions, i - 1);
    }
  }

  lemma FitAt(states: seq<State>, actions: seq<Action>, i: nat)
    requires StepAt(states, actions, i) && Inv(states[i]) && Prepared(states[i]) && Fit(states[i])
    ensures Prepared(states[i + 1]) && (Fit(states[i + 1]) <==> !InstallsUnderListener(states[i], actions[i]))
  {
    StepStaysFit(states[i], actions[i], states[i + 1]);
  }

  lemma InitIsFit(s: State)
    requires Init(s)
    ensures Fit(s) && Prepared(s)
  {
  }

  /** Calm or not: until the guest is first configured under a running listener, a listener or boot service
      serves the claimed registration or none; right after that, it does not. */
  lemma BrokenExactlyByInstall(states: seq<State>, actions: seq<Action>, i: nat)
    requires Run(states, actions) && i < |actions| && NoneUnderListener(states, actions, i)
    ensures Fit(states[i]) && (Fit(states[i + 1]) <==> !InstallsUnderListener(states[i], actions[i]))
  {
    FitSoFar(states, actions, i);
    RegistrationsStayInCustody(states, actions, i);
    FitAt(states, actions, i);
  }

  // ----- a boot in between -----

  function After(s: State, actions: seq<Action>): Option<State>
    decreases |actions|
  {
    if actions == [] then Some(s) else
    var s' := Apply(s, actions[0]);
    if s'.None? then None else After(s'.value, actions[1..])
  }

  function Renewal(scope: Scope): Request {
    Request(scope, "runner", "", true, "lease")
  }

  /** A consumed runner whose service is still enabled. */
  function Consumed(scope: Scope): State {
    State(Some(Binding(scope, 7, "runner", "Default", true, "lease")),
          Some(Settings(7, "runner", URL(scope), "Default", true)), false, true, {}, 8,
          Call(Idle, Renewal(scope), None, false, false))
  }

  /** The same, seen stopped and unlisted by a call. */
  function Unlisted(scope: Scope): State {
    Consumed(scope).(call := Call(Absent, Renewal(scope), Consumed(scope).claim, false, true))
  }

  lemma SeenStopped(scope: Scope)
    requires ValidScope(scope)
    ensures After(Consumed(scope), [BeginRegister(Renewal(scope)), Inspect, CheckPresent]) == Some(Unlisted(scope))
  {
    var s0, req := Consumed(scope), Renewal(scope);
    var s1 := s0.(call := Call(Begun, req, None, false, false));
    assert Apply(s0, BeginRegister(req)) == Some(s1);
    var s2 := s1.(call := Call(Inspected, req, s0.claim, false, true));
    assert Apply(s1, Inspect) == Some(s2);
    assert Apply(s2, CheckPresent) == Some(Unlisted(scope));
    AfterThree(s0, BeginRegister(req), Inspect, CheckPresent, s1, s2);
  }

  lemma AfterThree(s: State, a: Action, b: Action, c: Action, s1: State, s2: State)
    requires Apply(s, a) == Some(s1) && Apply(s1, b) == Some(s2)
    ensures After(s, [a, b, c]) == Apply(s2, c)
  {
    assert [a, b, c][1..] == [b, c] && [b, c][1..] == [c] && [c][1..] == [];
    assert After(s2, [c]) == Apply(s2, c);
    assert After(s1, [b, c]) == After(s2, [c]);
  }

  /** The guest boots after it was seen stopped, and the new settings are written under a running
      listener that the claim does not know. */
  lemma BootInBetweenBreaksIt(scope: Scope)
    requires ValidScope(scope)
    ensures Init(Consumed(scope))
    ensures After(Consumed(scope), [BeginRegister(Renewal(scope)), Inspect, CheckPresent]) == Some(Unlisted(scope))
    ensures var booted := Apply(Unlisted(scope), Boot);
            booted.Some? &&
            var cleared := After(booted.value, [DisableService, RemoveSettings, Install(true, "Default")]);
            cleared.Some? && !Fit(cleared.value)
  {
    SeenStopped(scope);
    var s4 := Unlisted(scope).(listener := true);
    assert Apply(Unlisted(scope), Boot) == Some(s4);
    var s5 := At(s4.(service := false), Disabled);
    assert Apply(s4, DisableService) == Some(s5);
    var s6 := At(s5.(settings := None), Cleared);
    assert Apply(s5, RemoveSettings) == Some(s6);
    AfterThree(s4, DisableService, RemoveSettings, Install(true, "Default"), s5, s6);
  }

  // ----- one register call, as its caller sees it -----

  /** No further call begins. */
  predicate Continues(actions: seq<Action>) {
    forall i | 0 <= i < |actions| :: !actions[i].BeginRegister? && !actions[i].BeginUnregister?
  }

  /** Wherever the schedule leads after the call has begun, a listener or boot service serves the claim or none. */
  ghost predicate StaysFit(s: State, req: Request, rest: seq<Action>) {
    Continues(rest) ==> var s' := After(s, [BeginRegister(req)] + rest); s'.Some? ==> Fit(s'.value)
  }

  /** The service is disabled until the call enables it. */
  predicate Shut(s: State) {
    s.call.at == Begun || s.call.at == Inspected || s.call.at == Absent ==> !s.service
  }

  lemma ShutIsCalm(s: State, action: Action)
    requires Shut(s) && Apply(s, action).Some? && !action.BeginRegister? && !action.BeginUnregister?
    ensures Calm(s, action) && Shut(Apply(s, action).value)
  {
  }

  lemma {:induction false} ShutStaysFit(s: State, actions: seq<Action>)
    requires Inv(s) && Prepared(s) && Fit(s) && Quiet(s) && Shut(s)
    requires Continues(actions) && After(s, actions).Some?
    ensures Fit(After(s, actions).value)
    decreases |actions|
  {
    if actions != [] {
      ShutIsCalm(s, actions[0]);
      CalmStepKeepsFit(s, actions[0]);
      StepKeepsCustody(s, actions[0]);
      ShutStaysFit(Apply(s, actions[0]).value, actions[1..]);
    }
  }

  lemma BegunWithServiceDisabled(s: State, req: Request, rest: seq<Action>)
    requires Init(s) && ValidScope(req.scope) && !s.service
    ensures StaysFit(s, req, rest)
  {
    var s1 := s.(call := Call(Begun, req, None, false, false));
    assert Apply(s, BeginRegister(req)) == Some(s1);
    assert ([BeginRegister(req)] + rest)[1..] == rest;
    if Continues(rest) && After(s1, rest).Some? {
      ShutStaysFit(s1, rest);
    }
  }

  /** The listener stops and the registration, if there is one, is consumed. */
  function Consumption(r: Registration): seq<Action> {
    [Stop, Vanish(r), Inspect]
  }

  lemma ConsumedIsUnlisted(s: State, req: Request, r: Registration)
    requires Init(s) && s.service && ValidScope(req.scope) && forall x | x in s.live :: x == r
    ensures var begun := s.(call := Call(Begun, req, None, false, false));
            After(begun, Consumption(r)) ==
            Some(s.(listener := false, live := {}, call := Call(Inspected, req, s.claim, false, s.settings.Some?)))
  {
    var s1 := s.(call := Call(Begun, req, None, false, false));
    var s2 := s1.(listener := false);
    var s3 := s2.(live := s.live - {r});
    assert s.live - {r} == {};
    assert Apply(s1, Stop) == Some(s2) && Apply(s2, Vanish(r)) == Some(s3);
    assert Adopted(s3, req) == Some(s.claim);
    AfterThree(s1, Stop, Vanish(r), Inspect, s2, s3);
  }

  lemma BootedBeforeDisabling(s: State)
    requires s.call.at == Inspected && !s.call.active && s.call.binding == s.claim && s.live == {}
    requires s.service && Agrees(s, s.claim)
    ensures After(s, [CheckPresent, Boot, DisableService]) ==
            Some(At(s.(listener := true, service := false), Disabled))
  {
    var s1 := At(s, Absent);
    assert Apply(s, CheckPresent) == Some(s1);
    var s2 := s1.(listener := true);
    assert Apply(s1, Boot) == Some(s2);
    AfterThree(s, CheckPresent, Boot, DisableService, s1, s2);
  }

  /** From there a boot before the service is disabled leaves a listener for settings that the claim does not name. */
  lemma BootedUnderInstall(s: State)
    requires WellFormed(s) && s.call.at == Inspected && !s.call.active && s.call.binding == s.claim && s.live == {}
    requires s.service && Agrees(s, s.claim)
    ensures var s' := After(s, [CheckPresent, Boot, DisableService] + [RemoveSettings, Install(true, "")]);
            s'.Some? && !Fit(s'.value)
  {
    var s3 := At(s.(listener := true, service := false), Disabled);
    BootedBeforeDisabling(s);
    var s4 := At(s3.(settings := None), Cleared);
    assert Apply(s3, RemoveSettings) == Some(s4);
    AfterTwo(s3, RemoveSettings, Install(true, ""), s4);
    AfterAppend(s, [CheckPresent, Boot, DisableService], s3, [RemoveSettings, Install(true, "")]);
  }

  lemma BegunWithServiceEnabled(s: State, req: Request) returns (rest: seq<Action>)
    requires Init(s) && ValidScope(req.scope) && s.service
    ensures !StaysFit(s, req, rest)
  {
    var r := Registration(req.scope, 0, "");
    if s.live != {} {
      r :| r in s.live;
    }
    var begun := s.(call := Call(Begun, req, None, false, false));
    var seen := s.(listener := false, live := {}, call := Call(Inspected, req, s.claim, false, s.settings.Some?));
    var more := [CheckPresent, Boot, DisableService] + [RemoveSettings, Install(true, "")];
    rest := Consumption(r) + more;
    ConsumedIsUnlisted(s, req, r);
    BootedUnderInstall(seen);
    AfterAppend(begun, Consumption(r), seen, more);
    assert Apply(s, BeginRegister(req)) == Some(begun);
    assert ([BeginRegister(req)] + rest)[1..] == rest;
  }

  /** For one register call begun in any idle and fit state: every schedule of its steps, the guest's and GitHub's
      keeps the listener and the boot service on the claim, if and only if the boot service is disabled when the
      call begins. */
  lemma RegisterStaysFitIff(s: State, req: Request)
    requires Init(s) && ValidScope(req.scope)
    ensures (forall rest :: StaysFit(s, req, rest)) <==> !s.service
  {
    if s.service {
      var rest := BegunWithServiceEnabled(s, req);
    } else {
      forall rest
        ensures StaysFit(s, req, rest)
      {
        BegunWithServiceDisabled(s, req, rest);
      }
    }
  }

  // ----- what is made durable -----

  /** The points at which the call has settled on a registration. */
  predicate HasSettled(at: Point) {
    at == Owned || at == Saved || at == Verified || at == Recorded || at == Unsaved || at == Enabled
  }

  /** The registration is for the lease and in every respect as requested. */
  predicate AsRequested(binding: Binding, req: Request) {
    && binding.scope == req.scope && binding.name == req.name && binding.ephemeral == req.ephemeral
    && binding.lease == req.lease && (req.group == "" || binding.group == req.group)
  }

  /** What the call has settled on, or is about to. */
  predicate Chosen(s: State) {
    s.call.at == Confirmed || HasSettled(s.call.at) ==>
      s.call.binding.Some? && AsRequested(s.call.binding.value, s.call.req)
  }

  lemma ReuseKeepsChosen(s: State, action: Action)
    requires Chosen(s) && Reuse(s, action).Some?
    ensures Chosen(Reuse(s, action).value)
  {
  }

  lemma RenewKeepsChosen(s: State, action: Action)
    requires Chosen(s) && Renew(s, action).Some?
    ensures Chosen(Renew(s, action).value)
  {
  }

  lemma ActivateKeepsChosen(s: State, action: Action)
    requires Chosen(s) && Activate(s, action).Some?
    ensures Chosen(Activate(s, action).value)
  {
  }

  lemma StepKeepsChosen(s: State, action: Action)
    requires Chosen(s) && Apply(s, action).Some?
    ensures Chosen(Apply(s, action).value)
  {
    match action
    case Abort | Vanish(_) | Stop | Boot | Forget =>
    case BeginRegister(_) | Inspect | CheckPresent | SaveOwned => ReuseKeepsChosen(s, action);
    case DisableService | RemoveSettings | Install(_, _) | Confirm | Verify => RenewKeepsChosen(s, action);
    case _ => ActivateKeepsChosen(s, action);
  }

  lemma {:induction false} SettledIsChosen(states: seq<State>, actions: seq<Action>, i: nat)
    requires Run(states, actions) && i < |states|
    ensures Chosen(states[i])
  {
    if i > 0 {
      assert StepAt(states, actions, i - 1);
      SettledIsChosen(states, actions, i - 1);
      StepKeepsChosen(states[i - 1], actions[i - 1]);
    }
  }

  /** The step at which a call settles, and what it sees then. */
  predicate SettlesWell(s: State, s': State) {
    HasSettled(s'.call.at) ==>
      && s.call.binding.Some? && s'.call.binding == s.call.binding
      && (HasSettled(s.call.at) || Named(s.call.binding.value) in s.live)
  }

  lemma ReuseSettles(s: State, action: Action)
    requires Reuse(s, action).Some? && Chosen(s)
    ensures SettlesWell(s, Reuse(s, action).value)
  {
  }

  lemma RenewSettles(s: State, action: Action)
    requires Renew(s, action).Some?
    ensures SettlesWell(s, Renew(s, action).value)
  {
  }

  lemma ActivateSettles(s: State, action: Action)
    requires Activate(s, action).Some? && Chosen(s)
    ensures SettlesWell(s, Activate(s, action).value)
  {
  }

  lemma StepSettles(s: State, action: Action)
    requires Apply(s, action).Some? && Chosen(s)
    ensures SettlesWell(s, Apply(s, action).value)
    ensures action.BeginRegister? ==> !HasSettled(Apply(s, action).value.call.at)
  {
    match action
    case Abort | Vanish(_) | Stop | Boot | Forget =>
    case BeginRegister(_) | Inspect | CheckPresent | SaveOwned => ReuseSettles(s, action);
    case DisableService | RemoveSettings | Install(_, _) | Confirm | Verify => RenewSettles(s, action);
    case _ => ActivateSettles(s, action);
  }

  predicate SettlesAt(s: State, action: Action, s': State) {
    SettlesWell(s, s') && (action.BeginRegister? ==> !HasSettled(s'.call.at))
  }

  lemma RunSettles(states: seq<State>, actions: seq<Action>, i: nat)
    requires Run(states, actions) && i < |actions|
    ensures SettlesAt(states[i], actions[i], states[i + 1])
  {
    SettledIsChosen(states, actions, i);
    assert StepAt(states, actions, i);
    StepSettles(states[i], actions[i]);
  }

  lemma {:induction false} ListedBefore(states: seq<State>, actions: seq<Action>, i: nat) returns (j: nat)
    requires |states| == |actions| + 1 && !HasSettled(states[0].call.at)
    requires forall k: nat | k < |actions| :: SettlesAt(states[k], actions[k], states[k + 1])
    requires i < |states| && HasSettled(states[i].call.at)
    ensures states[i].call.binding.Some? && j < i && Named(states[i].call.binding.value) in states[j].live
    ensures forall k | j <= k < i :: !actions[k].BeginRegister?
  {
    assert SettlesAt(states[i - 1], actions[i - 1], states[i - 1 + 1]);
    if HasSettled(states[i - 1].call.at) {
      j := ListedBefore(states, actions, i - 1);
    } else {
      j := i - 1;
    }
  }

  /** In every run, the registration that a call saves, records or starts a listener for is as requested, and GitHub
      listed it during that very call. */
  lemma SettledWasListed(states: seq<State>, actions: seq<Action>, i: nat) returns (j: nat)
    requires Run(states, actions) && i < |states| && HasSettled(states[i].call.at)
    ensures states[i].call.binding.Some? && AsRequested(states[i].call.binding.value, states[i].call.req)
    ensures j < i && Named(states[i].call.binding.value) in states[j].live
    ensures forall k | j <= k < i :: !actions[k].BeginRegister?
  {
    SettledIsChosen(states, actions, i);
    forall k: nat | k < |actions|
      ensures SettlesAt(states[k], actions[k], states[k + 1])
    {
      RunSettles(states, actions, k);
    }
    j := ListedBefore(states, actions, i);
  }

  // ----- what deleting a registration leaves -----

  /** In every run, once an unregistration or a rollback has ended, GitHub lists nothing under the id it worked on,
      and whatever else was there still is. */
  lemma DeletedIsGone(states: seq<State>, actions: seq<Action>, i: nat)
    requires Run(states, actions) && i < |actions| && (actions[i] == Delete || actions[i] == RollBack)
    ensures states[i].call.binding.Some? && !ListedID(states[i + 1], states[i].call.binding.value)
    ensures states[i + 1].live == states[i].live - {Named(states[i].call.binding.value)}
    ensures states[i + 1] == At(states[i].(live := states[i + 1].live), Idle)
  {
    assert StepAt(states, actions, i);
    RegistrationsStayInCustody(states, actions, i);
    DeletedIsUnlisted(states[i], states[i].call.binding.value);
  }

  lemma DeletedIsUnlisted(s: State, binding: Binding)
    requires Custody(s) && Deleted(s, binding).Some?
    ensures var s' := Deleted(s, binding).value;
            s' == s.(live := s.live - {Named(binding)}) && !ListedID(s', binding)
  {
    if !ListedID(s, binding) {
      assert Named(binding) !in s.live;
      assert s.live - {Named(binding)} == s.live;
    }
  }

  /** Unregistering deletes the registration that the claim names, and nothing else; it is done at once if GitHub
      lists none under that id, and refuses to delete another one. */
  lemma UnregisterDeletes(s: State)
    requires s.call.at == Idle && s.claim.Some?
    ensures var done := After(s, [BeginUnregister, Delete]);
            var registration := Named(s.claim.value);
            && (done.Some? <==> registration in s.live || !ListedID(s, s.claim.value))
            && (done.Some? ==> done.value == s.(live := s.live - {registration},
                                                call := s.call.(binding := s.claim)))
  {
    var s1 := s.(call := s.call.(at := Unregistering, binding := s.claim));
    assert Apply(s, BeginUnregister) == Some(s1);
    AfterTwo(s, BeginUnregister, Delete, s1);
    assert ListedID(s1, s.claim.value) <==> ListedID(s, s.claim.value);
    if !ListedID(s, s.claim.value) {
      assert Named(s.claim.value) !in s.live;
      assert s.live - {Named(s.claim.value)} == s.live;
    }
  }

  // ----- an existing registration is reused -----

  /** The call that has found the registration it asks for. */
  function OwnedCall(s: State, req: Request, binding: Binding, at: Point): Call {
    Call(at, req, Some(binding), s.listener, true)
  }

  lemma HeldIsOwned(s: State, req: Request, binding: Binding)
    requires s.call.at == Idle && ValidScope(req.scope) && s.settings.Some?
    requires Adopted(s, req) == Some(Some(binding)) && Named(binding) in s.live && BindingFits(binding, req)
    ensures After(s, [BeginRegister(req), Inspect, CheckPresent]) ==
            Some(s.(call := OwnedCall(s, req, binding, Owned)))
  {
    var s1 := s.(call := Call(Begun, req, None, false, false));
    assert Apply(s, BeginRegister(req)) == Some(s1);
    var s2 := s.(call := OwnedCall(s, req, binding, Inspected));
    assert Apply(s1, Inspect) == Some(s2);
    assert ListedID(s2, binding);
    AfterThree(s, BeginRegister(req), Inspect, CheckPresent, s1, s2);
  }

  lemma OwnedIsSaved(s: State)
    requires s.call.at == Owned
    ensures Apply(s, SaveOwned) == Some(At(s.(claim := s.call.binding), Saved))
  {
  }

  /** A registration that the guest and GitHub still hold, as requested, becomes the claim; its service and listener
      are started if the listener was stopped. */
  lemma ReuseGoesThrough(s: State, req: Request, binding: Binding)
    requires s.call.at == Idle && ValidScope(req.scope) && s.settings.Some?
    requires Adopted(s, req) == Some(Some(binding)) && Named(binding) in s.live && BindingFits(binding, req)
    ensures var saved := s.(claim := Some(binding), call := OwnedCall(s, req, binding, Saved));
            && After(s, [BeginRegister(req), Inspect, CheckPresent] + [SaveOwned]) == Some(saved)
            && (s.listener ==> Apply(saved, EnableService).None?)
            && (!s.listener ==> After(saved, [EnableService, StartListener]) ==
                                Some(At(saved.(service := true, listener := true), Idle)))
  {
    var owned := s.(call := OwnedCall(s, req, binding, Owned));
    HeldIsOwned(s, req, binding);
    OwnedIsSaved(owned);
    AfterOne(owned, SaveOwned);
    AfterAppend(s, [BeginRegister(req), Inspect, CheckPresent], owned, [SaveOwned]);
    SavedIsStarted(s.(claim := Some(binding), call := OwnedCall(s, req, binding, Saved)));
  }

  lemma AfterOne(s: State, a: Action)
    ensures After(s, [a]) == Apply(s, a)
  {
    assert [a][1..] == [];
  }

  lemma SavedIsStarted(s: State)
    requires s.call.at == Saved
    ensures s.call.active ==> Apply(s, EnableService).None?
    ensures !s.call.active ==> After(s, [EnableService, StartListener]) ==
                               Some(At(s.(service := true, listener := true), Idle))
  {
    if !s.call.active {
      var s1 := At(s.(service := true), Enabled);
      assert Apply(s, EnableService) == Some(s1);
      AfterTwo(s, EnableService, StartListener, s1);
    }
  }

  // ----- an undisturbed registration goes through -----

  lemma {:induction false} AfterAppend(s: State, first: seq<Action>, s1: State, more: seq<Action>)
    requires After(s, first) == Some(s1)
    ensures After(s, first + more) == After(s1, more)
    decreases |first|
  {
    if first == [] {
      assert first + more == more;
    } else {
      AfterAppend(Apply(s, first[0]).value, first[1..], s1, more);
      assert (first + more)[1..] == first[1..] + more;
    }
  }

  /** A stopped guest without a live registration, fresh or with the settings of a runner that is consumed: if the
      call accepts what it sees there, it finds nothing to reuse. */
  lemma StoppedGuestIsAbsent(s: State, req: Request)
    requires s.call.at == Idle && !s.listener && s.live == {} && ValidScope(req.scope) && Adopted(s, req).Some?
    ensures After(s, [BeginRegister(req), Inspect, CheckPresent]) ==
            Some(s.(call := Call(Absent, req, Adopted(s, req).value, false, s.settings.Some?)))
  {
    var s1 := s.(call := Call(Begun, req, None, false, false));
    assert Apply(s, BeginRegister(req)) == Some(s1);
    var s2 := s1.(call := Call(Inspected, req, Adopted(s, req).value, false, s.settings.Some?));
    assert Apply(s1, Inspect) == Some(s2);
    AfterThree(s, BeginRegister(req), Inspect, CheckPresent, s1, s2);
  }

  function Configured(s: State, group: string): State {
    var req := s.call.req;
    s.(service := false, live := {Registration(req.scope, s.nextID, req.name)}, nextID := s.nextID + 1,
       settings := Some(Settings(s.nextID, req.name, URL(req.scope), group, req.ephemeral)),
       call := s.call.(at := Settling))
  }

  /** Old settings that the call expects are cleared, and the guest is configured under the requested identity. */
  lemma AbsentIsConfigured(s: State, group: string)
    requires s.call.at == Absent && s.live == {}
    requires s.settings.Some? ==> s.call.binding.Some? && s.settings.value.id == s.call.binding.value.id
    ensures After(s, [DisableService, RemoveSettings, Install(true, group)]) == Some(Configured(s, group))
  {
    var s1 := At(s.(service := false), Disabled);
    assert Apply(s, DisableService) == Some(s1);
    var s2 := At(s1.(settings := None), Cleared);
    assert Apply(s1, RemoveSettings) == Some(s2);
    assert {} + {Registration(s.call.req.scope, s.nextID, s.call.req.name)} == Configured(s, group).live;
    AfterThree(s, DisableService, RemoveSettings, Install(true, group), s1, s2);
  }

  function NewBinding(s: State, req: Request, group: string): Binding {
    Binding(req.scope, s.nextID, req.name, group, req.ephemeral, req.lease)
  }

  /** A registration that the guest and GitHub both confirm is verified under the requested identity. */
  lemma ConfiguredIsVerified(s: State, group: string)
    requires !s.listener && (s.call.req.group != "" ==> group == s.call.req.group)
    ensures After(Configured(s, group), [Confirm, Verify]) ==
            Some(Configured(s, group).(call := s.call.(at := Verified,
                                                       binding := Some(NewBinding(s, s.call.req, group)))))
  {
    var c := Configured(s, group);
    var s1 := c.(call := c.call.(at := Confirmed, binding := Some(BindingFor(c.settings.value, c.call.req))));
    assert Apply(c, Confirm) == Some(s1);
    AfterTwo(c, Confirm, Verify, s1);
  }

  lemma AfterTwo(s: State, a: Action, b: Action, s1: State)
    requires Apply(s, a) == Some(s1)
    ensures After(s, [a, b]) == Apply(s1, b)
  {
    assert [a, b][1..] == [b] && [b][1..] == [];
    assert After(s1, [b]) == Apply(s1, b);
  }

  /** A verified registration becomes the durable claim, and only then can its listener start. */
  lemma VerifiedIsRecordedThenStarted(s: State)
    requires s.call.at == Verified && s.call.binding.Some?
    ensures After(s, [Record, EnableService, StartListener]) ==
            Some(At(s.(claim := s.call.binding, service := true, listener := true), Idle))
    ensures Apply(s, EnableService).None? && Apply(s, StartListener).None?
  {
    NothingStartsUnrecorded(s);
    var s1 := At(s.(claim := s.call.binding), Recorded);
    assert Apply(s, Record) == Some(s1);
    var s2 := At(s1.(service := true), Enabled);
    RecordedIsEnabled(s1);
    AfterThree(s, Record, EnableService, StartListener, s1, s2);
    EnabledIsStarted(s2);
  }

  lemma NothingStartsUnrecorded(s: State)
    requires s.call.at == Verified
    ensures Apply(s, EnableService).None? && Apply(s, StartListener).None?
  {
  }

  lemma RecordedIsEnabled(s: State)
    requires s.call.at == Recorded
    ensures Apply(s, EnableService) == Some(At(s.(service := true), Enabled))
  {
  }

  lemma EnabledIsStarted(s: State)
    requires s.call.at == Enabled
    ensures Apply(s, StartListener) == Some(At(s.(listener := true), Idle))
  {
  }

  /** The steps of a registration that nothing disturbs; GitHub answers with the runner group. */
  function Undisturbed(req: Request, group: string): seq<Action> {
    [BeginRegister(req), Inspect, CheckPresent] + ([DisableService, RemoveSettings, Install(true, group)] +
    ([Confirm, Verify] + [Record, EnableService, StartListener]))
  }

  /** Undisturbed, a registration on a stopped guest with no live registration, fresh or consumed, ends with the
      new registration live, its settings on the guest, its binding as the durable claim and its listener and
      boot service running, if the call accepts what it finds; otherwise it stops before it changes anything. */
  lemma RegistrationGoesThrough(s: State, req: Request, group: string)
    requires s.call.at == Idle && !s.listener && s.live == {} && ValidScope(req.scope)
    requires req.group != "" ==> group == req.group
    ensures Adopted(s, req).None? ==> After(s, [BeginRegister(req), Inspect]).None?
    ensures Adopted(s, req).Some? ==>
              var done := After(s, Undisturbed(req, group));
              && done.Some? && done.value.call.at == Idle
              && done.value.claim == Some(NewBinding(s, req, group))
              && done.value.live == {Named(NewBinding(s, req, group))}
              && done.value.settings.Some? && SettingsMatch(done.value.settings.value, NewBinding(s, req, group))
              && done.value.listener && done.value.service
  {
    var s1 := s.(call := Call(Begun, req, None, false, false));
    assert Apply(s, BeginRegister(req)) == Some(s1);
    AfterTwo(s, BeginRegister(req), Inspect, s1);
    if Adopted(s, req).Some? {
      var absent := s.(call := Call(Absent, req, Adopted(s, req).value, false, s.settings.Some?));
      StoppedGuestIsAbsent(s, req);
      FinishesFrom(absent, group);
      AfterAppend(s, [BeginRegister(req), Inspect, CheckPresent], absent,
                  [DisableService, RemoveSettings, Install(true, group)] +
                  ([Confirm, Verify] + [Record, EnableService, StartListener]));
    }
  }

  lemma FinishesFrom(s: State, group: string)
    requires s.call.at == Absent && s.live == {} && !s.listener
    requires s.settings.Some? ==> s.call.binding.Some? && s.settings.value.id == s.call.binding.value.id
    requires s.call.req.group != "" ==> group == s.call.req.group
    ensures var binding := NewBinding(s, s.call.req, group);
            var c := Configured(s, group);
            After(s, [DisableService, RemoveSettings, Install(true, group)] +
                     ([Confirm, Verify] + [Record, EnableService, StartListener])) ==
            Some(c.(claim := Some(binding), service := true, listener := true,
                    call := s.call.(at := Idle, binding := Some(binding))))
  {
    var binding := NewBinding(s, s.call.req, group);
    var c := Configured(s, group);
    var verified := c.(call := s.call.(at := Verified, binding := Some(binding)));
    AbsentIsConfigured(s, group);
    ConfiguredIsVerified(s, group);
    VerifiedIsRecordedThenStarted(verified);
    AfterAppend(c, [Confirm, Verify], verified, [Record, EnableService, StartListener]);
    AfterAppend(s, [DisableService, RemoveSettings, Install(true, group)], c,
                [Confirm, Verify] + [Record, EnableService, StartListener]);
  }
}

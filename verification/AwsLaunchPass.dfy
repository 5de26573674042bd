/**
  One region pass, for any control or none: failures are recorded and keys deleted only on EC2's word, unless
  the pass is entered with the terminal flag already set.
 */
module AwsLaunchPass {
  import opened Common
  import opened AwsErrors
  import opened AwsLaunch
  import opened AwsLaunchSafety

  /** Every event from the `n`-th on was justified where it happened. */
  predicate JustifiedSince(log: Log, n: nat) {
    |log| <= n || (JustifiedSince(Front(log), n) && StepJustified(Front(log), Last(log)))
  }

  /** The attempt that the control holds pinned. */
  function Pinned(s: State): Option<Attempt> {
    if s.control.Some? then s.control.value.pinned else None
  }

  /** The terminal flag is up and will be read: an attempt is pinned or can be. */
  predicate Flagged(s: State) {
    s.control.Some? && s.control.value.terminal && (s.control.value.hasBefore || s.control.value.pinned.Some?)
  }

  /** The history is justified since then, the control pins what it leaves unresolved, a pinned attempt under the
      flag is the one EC2 refused, and without a way to record failures it stays pinned. */
  predicate Kept(s: State, n: nat) {
    && JustifiedSince(s.log, n)
    && Pinned(s) == Unresolved(s.log)
    && (Flagged(s) && Pinned(s).Some? ==> TerminalFor(s.log, Pinned(s).value))
    && (Flagged(s) && !s.control.value.hasDefinite ==> Pinned(s).Some?)
  }

  predicate SameCallbacks(s: State, s': State) {
    && s'.control.Some? == s.control.Some?
    && (s.control.Some? ==> s'.control.value.hasBefore == s.control.value.hasBefore &&
                            s'.control.value.hasDefinite == s.control.value.hasDefinite)
  }

  /** What a step leaves behind. */
  predicate Leaves(s: State, s': State, n: nat) {
    Kept(s', n) && SameCallbacks(s, s') && LastKey(s'.log) == LastKey(s.log)
  }

  // ----- one launch -----

  lemma SettleJustified(w: World, s: State, a: Attempt, o: RunOutcome, n: nat)
    requires o.Rejected? && s.log != [] && Last(s.log) == Ran(a, o) && JustifiedSince(s.log, n)
    requires Pinned(s) == Unresolved(s.log)
    requires s.control.Some? && s.control.value.hasBefore ==> Pinned(s) == Some(a) && !s.control.value.terminal
    requires s.control.Some? && !s.control.value.hasBefore ==> Pinned(s).None?
    ensures var (s', e) := Settle(w, s, a, o);
            Leaves(s, s', n) && (Flagged(s') ==> !Retryable(e))
  {
    var refused := w.definite(s.log, a);
    Snoc(s.log, DefiniteCalled(a, refused.None?));
  }

  lemma SendJustified(w: World, s: State, a: Attempt, n: nat)
    requires JustifiedSince(s.log, n) && Pinned(s) == Unresolved(s.log)
    requires s.control.Some? && s.control.value.hasBefore ==> Pinned(s) == Some(a) && !s.control.value.terminal
    requires s.control.Some? && !s.control.value.hasBefore ==> Pinned(s).None?
    ensures var (s', r) := Send(w, s, a);
            Leaves(s, s', n) && (Flagged(s') ==> r.Failed? && !Retryable(r.error))
  {
    var o := w.run(s.log, a);
    Snoc(s.log, Ran(a, o));
    if o.Rejected? {
      SettleJustified(w, s.(log := s.log + [Ran(a, o)]), a, o, n);
    }
  }

  lemma AdmitJustified(w: World, s: State, a: Attempt, n: nat)
    requires Kept(s, n) && !Flagged(s)
    ensures var (s', refused) := Admit(w, s, a);
            && JustifiedSince(s'.log, n) && SameCallbacks(s, s') && LastKey(s'.log) == LastKey(s.log)
            && Pinned(s') == Unresolved(s'.log) && !Flagged(s')
            && (refused.None? && s.control.Some? ==>
                  Pinned(s') == (if s.control.value.hasBefore then Some(a) else None))
  {
    Snoc(s.log, BeforeCalled(a, w.before(s.log, a).None?));
  }

  lemma CreateServerJustified(w: World, cfg: Config, s: State, region: string, serverType: string, spot: bool,
                              imageID: string, groupID: string, n: nat)
    requires Kept(s, n) && !Flagged(s)
    ensures var (s', r) := CreateServer(w, cfg, s, region, serverType, spot, imageID, groupID);
            Leaves(s, s', n) && (Flagged(s') ==> r.Failed? && !Retryable(r.error))
  {
    var a := MakeAttempt(w, cfg, s, region, serverType, spot, imageID, groupID);
    if w.prepare(s.log, a).None? {
      AdmitJustified(w, s, a, n);
      var (admitted, refused) := Admit(w, s, a);
      if refused.None? {
        SendJustified(w, admitted, a, n);
      }
    }
  }

  lemma NotedTryJustified(s: State, s': State, e: Event, n: nat)
    requires Leaves(s, s', n) && e.Tried?
    ensures Leaves(s, s'.(log := s'.log + [e]), n)
  {
    Snoc(s'.log, e);
  }

  lemma TryCreateJustified(w: World, cfg: Config, s: State, site: Site, serverType: string, spot: bool, n: nat)
    requires Kept(s, n) && !Flagged(s)
    ensures var (s', r) := TryCreate(w, cfg, s, site, serverType, spot);
            Leaves(s, s', n) && (Flagged(s') ==> r.Failed? && !Retryable(r.error))
  {
    var resolved := if site.image.Some? then Ok(site.image.value)
                    else w.image(s.log, site.region, serverType);
    if resolved.Ok? {
      CreateServerJustified(w, cfg, s, site.region, serverType, spot, resolved.value, site.groupID, n);
      var (s1, r) := CreateServer(w, cfg, s, site.region, serverType, spot, resolved.value, site.groupID);
      NotedTryJustified(s, s1, Tried(serverType, spot, if r.Ok? then None else Some(r.error)), n);
    } else {
      NotedTryJustified(s, s, Tried(serverType, spot, Some(resolved.error)), n);
    }
  }

  // ----- one region -----

  lemma {:induction false} TryAllJustified(w: World, cfg: Config, s: State, site: Site, todo: seq<string>,
                                           spot: bool, errs: seq<Err>, fallback: seq<string>, n: nat)
    requires Kept(s, n) && !Flagged(s)
    ensures var (s', scan) := TryAll(w, cfg, s, site, todo, spot, errs, fallback);
            Leaves(s, s', n) && (scan.Exhausted? ==> !Flagged(s'))
    decreases |todo|
  {
    if todo != [] {
      TryCreateJustified(w, cfg, s, site, todo[0], spot, n);
      var (s1, r) := TryCreate(w, cfg, s, site, todo[0], spot);
      if r.Failed? && Retryable(r.error) {
        var fallback' := if spot && MarketFallback(r.error) then fallback + [todo[0]] else fallback;
        TryAllJustified(w, cfg, s1, site, todo[1..], spot, errs + [r.error], fallback', n);
      }
    }
  }

  lemma ProvisionJustified(w: World, cfg: Config, s: State, region: string, candidates: seq<string>, n: nat)
    requires Kept(s, n) && !Flagged(s)
    ensures Leaves(s, Provision(w, cfg, s, region, candidates).0, n)
  {
    var image := w.staticImage(s.log, region);
    var group := w.group(s.log, region);
    if image.Ok? && group.Ok? {
      var site := Site(region, image.value, group.value);
      TryAllJustified(w, cfg, s, site, candidates, cfg.spot, [], [], n);
      var (s1, first) := TryAll(w, cfg, s, site, candidates, cfg.spot, [], []);
      if first.Exhausted? {
        TryAllJustified(w, cfg, s1, site, first.fallback, false, first.errs, [], n);
      }
    }
  }

  /** A key may go when nothing is pinned, or when what is pinned was refused with a terminal code. */
  lemma KeyDeletionJustified(s: State, id: string, ok: bool, n: nat)
    requires Kept(s, n) && (Pinned(s).None? || Flagged(s))
    ensures var s' := s.(log := s.log + [KeyDeleted(id, ok)]); Leaves(s, s', n) && Flagged(s') == Flagged(s)
  {
    Snoc(s.log, KeyDeleted(id, ok));
  }

  /** A terminal rejection may be recorded once no managed key is left. */
  lemma RecordingJustified(s: State, a: Attempt, ok: bool, n: nat)
    requires Kept(s, n) && Flagged(s) && s.control.value.hasDefinite && Pinned(s) == Some(a) && KeyIsGone(s.log)
    ensures var c := if ok then s.control.value.(pinned := None) else s.control.value;
            var s' := State(s.log + [DefiniteCalled(a, ok)], Some(c)); Kept(s', n) && SameCallbacks(s, s')
  {
    Snoc(s.log, DefiniteCalled(a, ok));
  }

  lemma RollbackJustified(w: World, s: State, key: KeyBinding, e: Err, n: nat)
    requires Kept(s, n) && LastKey(s.log) == Some(key) && (key.managed ==> key.id != "")
    ensures var s' := Rollback(w, s, key, e).0; Kept(s', n) && SameCallbacks(s, s')
  {
    var terminal := Flagged(s) && Pinned(s).Some?;
    var cleanup := ((key.created && Pinned(s).None?) || (terminal && key.managed)) && key.id != "";
    var gone := w.deleteKey(s.log, key.id).None?;
    var s1 := if cleanup then s.(log := s.log + [KeyDeleted(key.id, gone)]) else s;
    if cleanup {
      KeyDeletionJustified(s, key.id, gone, n);
      Snoc(s.log, KeyDeleted(key.id, gone));
    }
    if terminal && s.control.value.hasDefinite && (cleanup ==> gone) {
      RecordingJustified(s1, Pinned(s).value, w.definite(s1.log, Pinned(s).value).None?, n);
    }
  }

  lemma EnteringKeeps(s: State, region: string, key: KeyBinding, n: nat)
    requires Kept(s, n) && !Flagged(s)
    ensures var s0 := s.(log := s.log + [PassStarted(region)]); Kept(s0, n) && !Flagged(s0)
    ensures var s1 := BindKey(s.(log := s.log + [PassStarted(region)]), key);
            Kept(s1, n) && !Flagged(s1) && SameCallbacks(s, s1) && LastKey(s1.log) == Some(key)
  {
    var s0 := s.(log := s.log + [PassStarted(region)]);
    Snoc(s.log, PassStarted(region));
    assert JustifiedSince(s0.log, n);
    Snoc(s0.log, KeyBound(key));
  }

  /** A pass entered without the flag, whatever callbacks there are, records failures and deletes keys only on
      EC2's word. */
  lemma PassIsJustified(w: World, cfg: Config, s: State, region: string, n: nat)
    requires Kept(s, n) && !Flagged(s)
    ensures var s' := RegionPass(w, cfg, s, region).0; Kept(s', n) && SameCallbacks(s, s')
  {
    var s0 := s.(log := s.log + [PassStarted(region)]);
    EnteringKeeps(s, region, KeyBinding("", false, false), n);
    var candidates := w.candidates(s0.log, region);
    var key := EnsureKeyBinding(w, s0.log);
    if candidates.Ok? && key.Ok? {
      EnteringKeeps(s, region, key.value, n);
      var bound := BindKey(s0, key.value);
      ProvisionJustified(w, cfg, bound, region, candidates.value, n);
      var (s1, r) := Provision(w, cfg, bound, region, candidates.value);
      if r.Failed? {
        RollbackJustified(w, s1, key.value, r.error, n);
      }
    }
  }

  lemma {:induction false} JustifiedAt(log: Log, n: nat, i: nat)
    requires JustifiedSince(log, n) && n <= i < |log|
    ensures StepJustified(log[..i], log[i])
  {
    if i < |log| - 1 {
      JustifiedAt(Front(log), n, i);
      assert Front(log)[..i] == log[..i];
    }
  }

  /** In one pass entered with the flag down, whatever happened before it and whichever callbacks there are:
      DefiniteFailure is recorded only for an attempt that EC2 rejected with a retryable or terminal code, no key
      is deleted while an ambiguous attempt is pinned, and a terminal rejection is recorded only after the
      managed key is gone. */
  lemma PassAddsOnlyJustified(w: World, cfg: Config, s: State, region: string, i: nat)
    requires (s.control.Some? ==> !s.control.value.terminal) && Pinned(s) == Unresolved(s.log)
    requires |s.log| <= i < |RegionPass(w, cfg, s, region).0.log|
    ensures var log := RegionPass(w, cfg, s, region).0.log; StepJustified(log[..i], log[i])
  {
    PassIsJustified(w, cfg, s, region, |s.log|);
    JustifiedAt(RegionPass(w, cfg, s, region).0.log, |s.log|, i);
  }

  // ----- a whole run -----

  /** No pass can be entered under the flag: there is no control, it pins nothing, or it never lets go. */
  predicate NeverFlagged(s: State) {
    s.control.None? || !s.control.value.hasBefore || !s.control.value.hasDefinite
  }

  lemma {:induction false} RegionsAreJustified(w: World, cfg: Config, s: State, home: string, todo: seq<string>,
                                               errs: seq<Err>)
    requires Kept(s, 0) && NeverFlagged(s) && (Pinned(s).None? || todo == [])
    ensures JustifiedSince(SearchRegions(w, cfg, s, home, todo, errs).0.log, 0)
    decreases |todo|
  {
    if todo != [] {
      var noClient := if todo[0] != home then w.client(s.log, todo[0]) else None;
      if noClient.Some? {
        RegionsAreJustified(w, cfg, s, home, todo[1..], errs + [noClient.value]);
      } else {
        PassIsJustified(w, cfg, s, todo[0], 0);
        var (s1, r) := RegionPass(w, cfg, s, todo[0]);
        if r.Failed? && ShouldRetryRegion(r.error, s1.control) {
          RegionsAreJustified(w, cfg, s1, home, todo[1..], errs + [r.error]);
        }
      }
    }
  }

  /** What a caller can see before the call: nothing can be pinned or cleared, or the flag is down and there is
      no second region to read it in. */
  predicate EntryIsSafe(control: Option<Control>, regions: seq<string>) {
    control.Some? && control.value.pinned.None? && control.value.hasBefore ==>
      !control.value.terminal && (!control.value.hasDefinite || |regions| <= 1)
  }

  /** Every event of the history was justified where it happened. */
  predicate EveryStepJustified(log: Log) {
    forall i | 0 <= i < |log| :: StepJustified(log[..i], log[i])
  }

  lemma {:induction false} JustifiedSinceIff(log: Log)
    ensures JustifiedSince(log, 0) <==> EveryStepJustified(log)
  {
    if log != [] {
      var n := |log| - 1;
      JustifiedSinceIff(Front(log));
      assert forall i | 0 <= i < n :: Front(log)[..i] == log[..i] && Front(log)[i] == log[i];
      assert log[..n] == Front(log);
    }
  }

  ghost predicate RunIsJustified(w: World, cfg: Config, control: Option<Control>, home: string, regions: seq<string>) {
    EveryStepJustified(CreateServerWithFallback(w, cfg, State([], control), home, regions).0.log)
  }

  /** Then every run is justified, in every world. */
  lemma SafeEntryIsJustified(w: World, cfg: Config, control: Option<Control>, home: string, regions: seq<string>)
    requires EntryIsSafe(control, regions)
    ensures RunIsJustified(w, cfg, control, home, regions)
  {
    var s := State([], control);
    if Pinned(s).None? {
      assert Kept(s, 0) && !Flagged(s);
      if |regions| > 1 {
        RegionsAreJustified(w, cfg, s, home, regions, []);
      } else {
        PassIsJustified(w, cfg, s, cfg.region, 0);
      }
      JustifiedSinceIff(CreateServerWithFallback(w, cfg, s, home, regions).0.log);
    }
  }
}

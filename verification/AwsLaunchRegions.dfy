/** Which regions a search visits, in order, and exactly where it stops. */
module AwsLaunchRegions {
  import opened Common
  import opened AwsErrors
  import opened AwsLaunch
  import opened AwsLaunchRequests

  /** One region of the search: the state before and after it, and its answer. */
  datatype Visit = Visit(region: string, before: State, after: State, answer: Reply<Option<Attempt>, Err>)

  /** Only the home region needs no client of its own. */
  function NoClient(w: World, home: string, v: Visit): Option<Err> {
    if v.region == home then None else w.client(v.before.log, v.region)
  }

  /** Without a client the region is passed over; otherwise it is searched. */
  predicate IsVisit(w: World, cfg: Config, home: string, v: Visit) {
    match NoClient(w, home, v)
    case Some(e) => v.after == v.before && v.answer == Failed(e)
    case None => (v.after, v.answer) == RegionPass(w, cfg, v.before, v.region)
  }

  /** The search goes on after the visit: there was no client, or the region failed in a way that another may not, with
      nothing pinned. */
  predicate Leaves(w: World, home: string, v: Visit) {
    && v.answer.Failed?
    && (NoClient(w, home, v).None? ==>
          RegionRetryable(v.answer.error) && (v.after.control.Some? ==> v.after.control.value.pinned.None?))
  }

  function ErrorsOf(visits: seq<Visit>): seq<Err> {
    if visits == [] then []
    else (if visits[0].answer.Failed? then [visits[0].answer.error] else []) + ErrorsOf(visits[1..])
  }

  /** The regions of the visits that had a client. */
  function Searched(w: World, home: string, visits: seq<Visit>): seq<string> {
    if visits == [] then []
    else (if NoClient(w, home, visits[0]).None? then [visits[0].region] else []) + Searched(w, home, visits[1..])
  }

  /** One visit after the other, in the order of the regions, each from where the last one ended. */
  predicate InTurn(w: World, cfg: Config, s: State, home: string, todo: seq<string>, visits: seq<Visit>, s': State) {
    && |visits| <= |todo|
    && (forall k | 0 <= k < |visits| :: visits[k].region == todo[k] && IsVisit(w, cfg, home, visits[k]))
    && (forall k | 0 <= k < |visits| - 1 ::
          Leaves(w, home, visits[k]) && visits[k + 1].before == visits[k].after)
    && (if visits == [] then s' == s else visits[0].before == s && visits[|visits| - 1].after == s')
  }

  /** It stops at the first visit that it does not leave, and otherwise only at the end of the list. */
  predicate StopsThere(w: World, home: string, todo: seq<string>, visits: seq<Visit>) {
    |visits| < |todo| ==> visits != [] && !Leaves(w, home, visits[|visits| - 1])
  }

  /** It answers as its last visit did if that succeeded, and with all errors otherwise. */
  predicate AnswersSo(visits: seq<Visit>, errs: seq<Err>, r: Reply<Option<Attempt>, Err>) {
    if visits != [] && visits[|visits| - 1].answer.Ok? then r == visits[|visits| - 1].answer
    else if errs + ErrorsOf(visits) == [] then r == Ok(None)
    else r == Failed(Union(errs + ErrorsOf(visits)))
  }

  ghost predicate SearchIs(w: World, cfg: Config, s: State, home: string, todo: seq<string>, errs: seq<Err>,
                           visits: seq<Visit>, s': State, r: Reply<Option<Attempt>, Err>) {
    InTurn(w, cfg, s, home, todo, visits, s') && StopsThere(w, home, todo, visits) && AnswersSo(visits, errs, r)
  }

  lemma InTurnCons(w: World, cfg: Config, home: string, todo: seq<string>, v: Visit, rest: seq<Visit>, s': State)
    requires todo != [] && v.region == todo[0] && IsVisit(w, cfg, home, v) && Leaves(w, home, v)
    requires InTurn(w, cfg, v.after, home, todo[1..], rest, s')
    ensures InTurn(w, cfg, v.before, home, todo, [v] + rest, s')
  {
    var visits := [v] + rest;
    forall k | 0 <= k < |visits|
      ensures visits[k].region == todo[k] && IsVisit(w, cfg, home, visits[k])
      ensures k < |visits| - 1 ==> Leaves(w, home, visits[k]) && visits[k + 1].before == visits[k].after
    {
      if k > 0 {
        assert visits[k] == rest[k - 1] && todo[k] == todo[1..][k - 1];
        assert k < |visits| - 1 ==> visits[k + 1] == rest[k - 1 + 1];
      }
    }
    if rest != [] {
      assert visits[|visits| - 1] == rest[|rest| - 1];
    }
  }

  lemma SearchCons(w: World, cfg: Config, home: string, todo: seq<string>, errs: seq<Err>, v: Visit, rest: seq<Visit>,
                   s': State, r: Reply<Option<Attempt>, Err>)
    requires todo != [] && v.region == todo[0] && IsVisit(w, cfg, home, v) && Leaves(w, home, v)
    requires SearchIs(w, cfg, v.after, home, todo[1..], errs + [v.answer.error], rest, s', r)
    ensures SearchIs(w, cfg, v.before, home, todo, errs, [v] + rest, s', r)
  {
    var visits := [v] + rest;
    InTurnCons(w, cfg, home, todo, v, rest, s');
    assert visits[1..] == rest && (rest != [] ==> visits[|visits| - 1] == rest[|rest| - 1]);
    assert errs + [v.answer.error] + ErrorsOf(rest) == errs + ErrorsOf(visits);
  }

  lemma SearchStops(w: World, cfg: Config, s: State, home: string, todo: seq<string>, errs: seq<Err>, v: Visit)
    requires todo != [] && v.region == todo[0] && v.before == s && IsVisit(w, cfg, home, v) && !Leaves(w, home, v)
    ensures SearchIs(w, cfg, s, home, todo, errs, [v], v.after,
                     if v.answer.Ok? then v.answer else Failed(Union(errs + [v.answer.error])))
  {
    assert [v][1..] == [] && ErrorsOf([]) == [];
  }

  lemma SearchEnds(w: World, cfg: Config, s: State, home: string, errs: seq<Err>)
    ensures SearchIs(w, cfg, s, home, [], errs, [], s,
                     if JoinErrors(errs).Some? then Failed(JoinErrors(errs).value) else Ok(None))
  {
    assert errs + ErrorsOf([]) == errs;
  }

  /** For every world the search visits the regions in the order of the list, passes over those it has no client for,
      goes on after a region exactly if that failed retryably with nothing pinned, and answers with its last success
      or with all errors. */
  lemma {:induction false} SearchVisitsInOrder(w: World, cfg: Config, s: State, home: string, todo: seq<string>,
                                               errs: seq<Err>) returns (visits: seq<Visit>)
    ensures var (s', r) := SearchRegions(w, cfg, s, home, todo, errs);
            SearchIs(w, cfg, s, home, todo, errs, visits, s', r)
    decreases |todo|
  {
    var (s', r) := SearchRegions(w, cfg, s, home, todo, errs);
    if todo == [] {
      visits := [];
      SearchEnds(w, cfg, s, home, errs);
    } else {
      var noClient := if todo[0] != home then w.client(s.log, todo[0]) else None;
      var (after, answer) := if noClient.Some? then (s, Failed(noClient.value)) else RegionPass(w, cfg, s, todo[0]);
      var v := Visit(todo[0], s, after, answer);
      if Leaves(w, home, v) {
        var rest := SearchVisitsInOrder(w, cfg, after, home, todo[1..], errs + [v.answer.error]);
        visits := [v] + rest;
        SearchCons(w, cfg, home, todo, errs, v, rest, s', r);
      } else {
        visits := [v];
        SearchStops(w, cfg, s, home, todo, errs, v);
      }
    }
  }

  /** The history enters exactly the visited regions that have a client. */
  lemma {:induction false} EntersTheVisited(w: World, cfg: Config, s: State, home: string, todo: seq<string>,
                                            visits: seq<Visit>, s': State)
    requires Resting(w, cfg, s) && InTurn(w, cfg, s, home, todo, visits, s')
    ensures Entered(s'.log) == Entered(s.log) + Searched(w, home, visits)
    decreases |visits|
  {
    if visits != [] {
      var v, rest := visits[0], visits[1..];
      if NoClient(w, home, v).None? {
        RegionPassIsTied(w, cfg, s, v.region);
      }
      assert InTurn(w, cfg, v.after, home, todo[1..], rest, s') by {
        InTurnTail(w, cfg, s, home, todo, visits, s');
      }
      EntersTheVisited(w, cfg, v.after, home, todo[1..], rest, s');
    }
  }

  lemma InTurnTail(w: World, cfg: Config, s: State, home: string, todo: seq<string>, visits: seq<Visit>, s': State)
    requires InTurn(w, cfg, s, home, todo, visits, s') && visits != []
    ensures InTurn(w, cfg, visits[0].after, home, todo[1..], visits[1..], s')
  {
    var rest := visits[1..];
    assert forall k | 0 <= k < |rest| :: rest[k] == visits[k + 1] && todo[1..][k] == todo[k + 1];
    if rest != [] {
      assert rest[|rest| - 1] == visits[|visits| - 1] && visits[0 + 1].before == visits[0].after;
    }
  }

  /** In every run over several regions the history enters exactly those, in that order. */
  lemma RunEntersTheVisited(w: World, cfg: Config, control: Option<Control>, home: string, regions: seq<string>)
    returns (visits: seq<Visit>)
    requires |regions| > 1 && (control.Some? ==> control.value.pinned.None?)
    ensures var (s, r) := CreateServerWithFallback(w, cfg, State([], control), home, regions);
            && SearchIs(w, cfg, State([], control), home, regions, [], visits, s, r)
            && Entered(s.log) == Searched(w, home, visits)
  {
    var s := State([], control);
    visits := SearchVisitsInOrder(w, cfg, s, home, regions, []);
    EntersTheVisited(w, cfg, s, home, regions, visits, SearchRegions(w, cfg, s, home, regions, []).0);
  }

  /** A run over at most one region enters the configured one; with an attempt pinned at entry, no run does anything. */
  lemma RunEntersHome(w: World, cfg: Config, control: Option<Control>, home: string, regions: seq<string>)
    ensures var (s, r) := CreateServerWithFallback(w, cfg, State([], control), home, regions);
            && (control.Some? && control.value.pinned.Some? ==> s == State([], control) && r.Failed?)
            && ((control.Some? ==> control.value.pinned.None?) && |regions| <= 1 ==>
                  Entered(s.log) == [cfg.region] && (s, r) == RegionPass(w, cfg, State([], control), cfg.region))
  {
    RegionPassIsTied(w, cfg, State([], control), cfg.region);
  }

  // ----- what is refused, and that no error is lost -----

  /** An attempt whose token is known to have failed is passed over, as if there were no capacity for it; one that
      comes while another is pinned ends the sweep; any other is up to the callback, if there is one. */
  lemma AdmissionIs(w: World, s: State, a: Attempt)
    requires s.control.Some?
    ensures var c, (s', refused) := s.control.value, Admit(w, s, a);
            && (a.token in c.failedTokens ==> s' == s && refused.Some? && MarketFallback(refused.value))
            && (a.token !in c.failedTokens && c.pinned.Some? ==> s' == s && refused == Some({}))
            && (a.token !in c.failedTokens && c.pinned.None? ==>
                  refused == if c.hasBefore then w.before(s.log, a) else None)
  {
  }

  /** The rollback asks for the deletion of this key. */
  predicate Deletes(s: State, key: KeyBinding) {
    && key.id != ""
    && if s.control.None? || s.control.value.pinned.None? then key.created
       else key.managed && s.control.value.terminal
  }

  /** A failed region's key goes if it is new and nothing is pinned, or if what is pinned was refused for good; then
      the failure is recorded; the answer holds every error there was. */
  lemma RollbackIs(w: World, s: State, key: KeyBinding, e: Err)
    requires key.created ==> key.managed
    ensures var (s', e') := Rollback(w, s, key, e);
            var kept := if Deletes(s, key) then w.deleteKey(s.log, key.id) else None;
            var cleaned := if Deletes(s, key) then s.log + [KeyDeleted(key.id, kept.None?)] else s.log;
            var records := s.control.Some? && s.control.value.pinned.Some? && s.control.value.terminal &&
                           s.control.value.hasDefinite && kept.None?;
            if records then
              var a := s.control.value.pinned.value;
              var unsaved := w.definite(cleaned, a);
              && s'.log == cleaned + [DefiniteCalled(a, unsaved.None?)]
              && e' == e + (if unsaved.Some? then unsaved.value else {})
              && s'.control == Some(if unsaved.None? then s.control.value.(pinned := None) else s.control.value)
            else s'.log == cleaned && s'.control == s.control && e' == e + if kept.Some? then kept.value else {}
  {
  }

  /** A pass that cannot list its candidates or bind its key fails with that error and does nothing else; one that
      cannot look up image or group fails with that error after its rollback. */
  lemma PassFailsWith(w: World, cfg: Config, s: State, region: string)
    ensures var (s', r) := RegionPass(w, cfg, s, region);
            var entered := s.log + [PassStarted(region)];
            var candidates, key := w.candidates(entered, region), EnsureKeyBinding(w, entered);
            && (candidates.Failed? ==> s' == s.(log := entered) && r == Failed(candidates.error))
            && (candidates.Ok? && key.Failed? ==> s' == s.(log := entered) && r == Failed(key.error))
            && (candidates.Ok? && key.Ok? ==>
                  var bound := BindKey(s.(log := entered), key.value);
                  var image, group := w.staticImage(bound.log, region), w.group(bound.log, region);
                  && (image.Failed? ==> (s', r) == Undone(w, bound, key.value, image.error))
                  && (image.Ok? && group.Failed? ==> (s', r) == Undone(w, bound, key.value, group.error)))
  {
  }

  function Undone(w: World, s: State, key: KeyBinding, e: Err): (State, Reply<Option<Attempt>, Err>) {
    var (s', e') := Rollback(w, s, key, e);
    (s', Failed(e'))
  }
}

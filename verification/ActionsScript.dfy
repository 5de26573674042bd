/** When a workflow renders, and in which order its steps stand in the script. */
module ActionsScript {
  import opened ActionsCapture

  // ----- exactly when -----

  /** The last step of the chain can be rendered where it stands, and, if it is a composite action, opened there. */
  predicate Fine(w: Workflow, captured: set<StepRef>, c: Conditions, chain: Chain)
    requires chain != []
  {
    var ref := chain[|chain| - 1];
    && c(chain) == Render(true)
    && (IsComposite(w, ref) ==>
          && ref in captured && w.read(UsesOf(w, ref)).Action? && w.read(UsesOf(w, ref)).composite
          && |chain| <= DepthLimit)
  }

  /** Every step that is reached unskipped can be rendered. */
  ghost predicate AllFine(w: Workflow, captured: set<StepRef>, c: Conditions) {
    forall chain: Chain | chain != [] && Live(w, c, chain) :: Fine(w, captured, c, chain)
  }

  lemma {:induction false} FineRenders(w: Workflow, captured: set<StepRef>, c: Conditions, path: Chain,
                                       todo: seq<StepRef>)
    requires AllFine(w, captured, c) && Live(w, c, path) && |path| <= DepthLimit
    requires forall ref | ref in todo :: Exists(w, ref) && ref in Level(w, path)
    ensures RenderSteps(w, captured, c, path, todo).Rendered?
    decreases DepthLimit + 1 - |path|, |todo|, 1
  {
    if todo != [] {
      FineRenders(w, captured, c, path, todo[1..]);
      FineStepRenders(w, captured, c, path, todo[0]);
    }
  }

  lemma {:induction false} FineStepRenders(w: Workflow, captured: set<StepRef>, c: Conditions, path: Chain,
                                           ref: StepRef)
    requires AllFine(w, captured, c) && Live(w, c, path) && |path| <= DepthLimit
    requires Exists(w, ref) && ref in Level(w, path)
    ensures RenderStep(w, captured, c, path, ref).Rendered?
    decreases DepthLimit + 1 - |path|, 0, 0
  {
    var here := path + [ref];
    if !c(here).Skip? {
      LiveStep(w, c, path, ref);
      assert Fine(w, captured, c, here);
      if w.local(UsesOf(w, ref)) {
        FineRenders(w, captured, c, here, ActionRefs(w, UsesOf(w, ref)));
      }
    }
  }

  /** In a rendered level every step that is not skipped is fine. */
  lemma {:induction false} RenderedIsFine(w: Workflow, captured: set<StepRef>, c: Conditions, path: Chain,
                                          todo: seq<StepRef>, ref: StepRef)
    requires forall r | r in todo :: Exists(w, r)
    requires RenderSteps(w, captured, c, path, todo).Rendered? && ref in todo && !c(path + [ref]).Skip?
    ensures Fine(w, captured, c, path + [ref])
    decreases |todo|
  {
    if ref == todo[0] {
      assert RenderStep(w, captured, c, path, ref).Rendered?;
      if IsComposite(w, ref) {
        assert RenderSteps(w, captured, c, path + [ref], ActionRefs(w, UsesOf(w, ref))).Rendered?;
      }
    } else {
      RenderedIsFine(w, captured, c, path, todo[1..], ref);
    }
  }

  /** A workflow renders if and only if every step that some chain of uses reaches unskipped renders and concludes
      where it stands and, if it is a composite action, was captured, can be read, is one, and lies within the depth
      limit. */
  lemma RendersIff(w: Workflow, captured: set<StepRef>, c: Conditions)
    ensures RenderSteps(w, captured, c, [], JobRefs(w)).Rendered? <==> AllFine(w, captured, c)
  {
    var whole := RenderSteps(w, captured, c, [], JobRefs(w));
    if AllFine(w, captured, c) {
      FineRenders(w, captured, c, [], JobRefs(w));
    }
    if whole.Rendered? {
      forall chain: Chain | chain != [] && Live(w, c, chain)
        ensures Fine(w, captured, c, chain)
      {
        LiveChainIsFine(w, captured, c, chain, whole);
      }
    }
  }

  lemma LevelIsRendered(w: Workflow, captured: set<StepRef>, c: Conditions, path: Chain, whole: Outcome)
    requires whole == RenderSteps(w, captured, c, [], JobRefs(w)) && whole.Rendered?
    requires Live(w, c, path) && EndsInAction(w, path)
    ensures (forall ref | ref in Level(w, path) :: Exists(w, ref)) &&
            RenderSteps(w, captured, c, path, Level(w, path)).Rendered?
  {
    assert Within(whole, whole) && Level(w, []) == JobRefs(w);
    assert LevelWithin(w, captured, c, [], whole);
    LiveIsRendered(w, captured, c, path, whole);
  }

  lemma LiveChainIsFine(w: Workflow, captured: set<StepRef>, c: Conditions, chain: Chain, whole: Outcome)
    requires whole == RenderSteps(w, captured, c, [], JobRefs(w)) && whole.Rendered?
    requires chain != [] && Live(w, c, chain)
    ensures Fine(w, captured, c, chain)
  {
    var path, ref := chain[..|chain| - 1], chain[|chain| - 1];
    LastStep(w, c, chain);
    LevelIsRendered(w, captured, c, path, whole);
    RenderedIsFine(w, captured, c, path, Level(w, path), ref);
  }

  lemma LastStep(w: Workflow, c: Conditions, chain: Chain)
    requires chain != [] && Live(w, c, chain)
    ensures var path, ref := chain[..|chain| - 1], chain[|chain| - 1];
            && chain == path + [ref] && Live(w, c, path) && EndsInAction(w, path) && ref in Level(w, path)
            && !c(path + [ref]).Skip?
  {
  }

  // ----- in which order -----

  function Index(ref: StepRef): nat {
    ref.index
  }

  /** `a` comes first: `b` lies below it, or below a later step of the same list. */
  ghost predicate Precedes(a: Chain, b: Chain) {
    exists k: nat :: k <= |a| && k < |b| && a[..k] == b[..k] && (k == |a| || Index(a[k]) < Index(b[k]))
  }

  ghost predicate InOrder(script: seq<Chain>) {
    forall i, j | 0 <= i < j < |script| :: Precedes(script[i], script[j])
  }

  /** The chain goes on from the path with one of these steps. */
  predicate Below(path: Chain, todo: seq<StepRef>, chain: Chain) {
    |path| < |chain| && chain[..|path|] == path && chain[|path|] in todo
  }

  predicate AllBelow(path: Chain, todo: seq<StepRef>, script: seq<Chain>) {
    forall i | 0 <= i < |script| :: Below(path, todo, script[i])
  }

  predicate Ascending(todo: seq<StepRef>) {
    forall i, j | 0 <= i < j < |todo| :: Index(todo[i]) < Index(todo[j])
  }

  lemma Joined(path: Chain, first: StepRef, rest: seq<StepRef>, a: seq<Chain>, b: seq<Chain>)
    requires Ascending([first] + rest) && InOrder(a) && InOrder(b)
    requires AllBelow(path, [first], a) && AllBelow(path, rest, b)
    ensures InOrder(a + b) && AllBelow(path, [first] + rest, a + b)
  {
    var all := a + b;
    forall i, j | 0 <= i < j < |all|
      ensures Precedes(all[i], all[j])
    {
      if j < |a| {
        assert Precedes(a[i], a[j]);
      } else if i >= |a| {
        assert Precedes(b[i - |a|], b[j - |a|]);
      } else {
        var x, y := a[i], b[j - |a|];
        assert Below(path, [first], x) && Below(path, rest, y);
        var k :| 0 <= k < |rest| && rest[k] == y[|path|];
        assert ([first] + rest)[k + 1] == y[|path|] && ([first] + rest)[0] == x[|path|];
        assert x[..|path|] == y[..|path|];
      }
    }
    forall i | 0 <= i < |all|
      ensures Below(path, [first] + rest, all[i])
    {
      if i < |a| {
        assert Below(path, [first], a[i]);
      } else {
        assert Below(path, rest, b[i - |a|]);
      }
    }
  }

  lemma ComesBelow(path: Chain, ref: StepRef, todo: seq<StepRef>, chain: Chain)
    requires Below(path + [ref], todo, chain)
    ensures Precedes(path + [ref], chain) && Below(path, [ref], chain)
  {
    var here := path + [ref];
    assert here[..|here|] == chain[..|here|];
    assert chain[..|here|][..|path|] == chain[..|path|] && chain[..|here|][|path|] == chain[|path|];
  }

  lemma Opened(path: Chain, ref: StepRef, todo: seq<StepRef>, inner: seq<Chain>)
    requires InOrder(inner) && AllBelow(path + [ref], todo, inner)
    ensures InOrder([path + [ref]] + inner) && AllBelow(path, [ref], [path + [ref]] + inner)
  {
    var here := path + [ref];
    var all := [here] + inner;
    forall j | 0 <= j < |inner|
      ensures Precedes(here, inner[j]) && Below(path, [ref], inner[j])
    {
      ComesBelow(path, ref, todo, inner[j]);
    }
    forall i, j | 0 <= i < j < |all|
      ensures Precedes(all[i], all[j])
    {
      assert all[j] == inner[j - 1];
      assert i > 0 ==> all[i] == inner[i - 1];
    }
    assert here[..|path|] == path;
  }

  lemma ActionRefsAscend(w: Workflow, uses: string)
    ensures Ascending(ActionRefs(w, uses))
  {
    var refs := ActionRefs(w, uses);
    assert forall i | 0 <= i < |refs| :: refs[i] == ActionStep(uses, i);
  }

  lemma JobRefsAscend(w: Workflow)
    ensures Ascending(JobRefs(w))
  {
    var refs := JobRefs(w);
    assert forall i | 0 <= i < |refs| :: refs[i] == JobStep(i);
  }

  lemma {:induction false} LevelIsInOrder(w: Workflow, captured: set<StepRef>, c: Conditions, path: Chain,
                                          todo: seq<StepRef>)
    requires Ascending(todo) && forall ref | ref in todo :: Exists(w, ref)
    requires RenderSteps(w, captured, c, path, todo).Rendered?
    ensures var script := RenderSteps(w, captured, c, path, todo).script;
            InOrder(script) && AllBelow(path, todo, script)
    decreases DepthLimit + 1 - |path|, |todo|, 1
  {
    if todo != [] {
      var step := RenderStep(w, captured, c, path, todo[0]);
      StepIsInOrder(w, captured, c, path, todo[0]);
      LevelIsInOrder(w, captured, c, path, todo[1..]);
      assert [todo[0]] + todo[1..] == todo;
      Joined(path, todo[0], todo[1..], step.script, RenderSteps(w, captured, c, path, todo[1..]).script);
    }
  }

  lemma {:induction false} StepIsInOrder(w: Workflow, captured: set<StepRef>, c: Conditions, path: Chain, ref: StepRef)
    requires Exists(w, ref) && |path| <= DepthLimit && RenderStep(w, captured, c, path, ref).Rendered?
    ensures var script := RenderStep(w, captured, c, path, ref).script;
            InOrder(script) && AllBelow(path, [ref], script)
    decreases DepthLimit + 1 - |path|, 0, 0
  {
    if !c(path + [ref]).Skip? {
      var here, uses := path + [ref], UsesOf(w, ref);
      var todo := ActionRefs(w, uses);
      if w.local(uses) {
        ActionRefsAscend(w, uses);
        LevelIsInOrder(w, captured, c, here, todo);
        Opened(path, ref, todo, RenderSteps(w, captured, c, here, todo).script);
      } else {
        Opened(path, ref, todo, []);
      }
    }
  }

  /** The steps stand in the script in the order of the workflow, each once, and what an action uses stands right
      below it and before the step that follows it. */
  lemma ScriptIsInOrder(w: Workflow, captured: set<StepRef>, c: Conditions)
    requires RenderSteps(w, captured, c, [], JobRefs(w)).Rendered?
    ensures InOrder(RenderSteps(w, captured, c, [], JobRefs(w)).script)
  {
    JobRefsAscend(w);
    LevelIsInOrder(w, captured, c, [], JobRefs(w));
  }

  /** No chain precedes itself, so nothing stands there twice. */
  lemma NothingTwice(script: seq<Chain>)
    requires InOrder(script)
    ensures forall i, j | 0 <= i < j < |script| :: script[i] != script[j]
  {
    forall i, j | 0 <= i < j < |script|
      ensures script[i] != script[j]
    {
      assert Precedes(script[i], script[j]);
    }
  }

  /** The same without the capture, which sees to its part. */
  predicate FineHere(w: Workflow, c: Conditions, chain: Chain)
    requires chain != []
  {
    var ref := chain[|chain| - 1];
    && c(chain) == Render(true)
    && (IsComposite(w, ref) ==>
          w.read(UsesOf(w, ref)).Action? && w.read(UsesOf(w, ref)).composite && |chain| <= DepthLimit)
  }

  lemma CapturedIsFine(w: Workflow, captured: set<StepRef>, c: Conditions, chain: Chain)
    requires forall ref :: ref in captured <==> IsComposite(w, ref) && Renderable(w, ref, DepthLimit)
    requires chain != [] && Live(w, c, chain)
    ensures Fine(w, captured, c, chain) <==> FineHere(w, c, chain)
  {
    LiveIsReached(w, c, chain);
  }

  lemma {:induction false} LiveIsReached(w: Workflow, c: Conditions, chain: Chain)
    requires chain != [] && Live(w, c, chain)
    ensures Exists(w, chain[|chain| - 1]) && Reaches(w, chain[|chain| - 1], |chain| - 1)
    decreases |chain|
  {
    var path, ref := chain[..|chain| - 1], chain[|chain| - 1];
    if path != [] {
      LiveIsReached(w, c, path);
      assert IsChild(w, path[|path| - 1], ref);
    }
  }

  // ----- capture and rendering -----

  /** Capture, then render: for every graph of actions and all conditions, no missing source is used; there is a
      script if and only if every step that is reached unskipped is fine where it stands, and it holds exactly those
      steps, in order. */
  method Hydrate(job: seq<Step>, read: string -> Source, c: Conditions)
    returns (captured: set<StepRef>, outcome: Outcome)
    ensures !outcome.Crashed?
    ensures var w := Workflow(job, read, IsLocalUse);
            outcome.Rendered? <==> forall chain: Chain | chain != [] && Live(w, c, chain) :: FineHere(w, c, chain)
    ensures var w := Workflow(job, read, IsLocalUse);
            outcome.Rendered? ==>
              InOrder(outcome.script) && forall chain: Chain :: chain in outcome.script <==>
                                           chain != [] && Live(w, c, chain)
  {
    var w := Workflow(job, read, IsLocalUse);
    captured := PrepareSources(w);
    RenderingIsSafe(w, captured, c, [], JobRefs(w));
    RendersIff(w, captured, c);
    forall chain: Chain | chain != [] && Live(w, c, chain)
      ensures Fine(w, captured, c, chain) <==> FineHere(w, c, chain)
    {
      CapturedIsFine(w, captured, c, chain);
    }
    if RenderSteps(w, captured, c, [], JobRefs(w)).Rendered? {
      ScriptIsInOrder(w, captured, c);
      ScriptIsTheLiveChains(w, captured, c);
    }
    outcome := AppendSteps(w, captured, c, [], JobRefs(w));
  }
}

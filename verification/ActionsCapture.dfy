/**
  Local composite actions: their files are captured breadth first, each once, before anything is
  rendered; rendering then descends through the captured copies, to a fixed depth.  Actions may use one
  another in any way, themselves included.
 */
module ActionsCapture {
  import opened Common

  const DepthLimit: nat := 8

  datatype Step = Step(uses: string)

  /** What reading an action file gave: an error, or whether it is composite and its steps. */
  datatype Source = Unreadable | Action(composite: bool, steps: seq<Step>)

  /** The job's steps, what each `uses` text reads as, and which of them name local actions. */
  datatype Workflow = Workflow(job: seq<Step>, read: string -> Source, local: string -> bool)

  /** A step is one object: a step of the job, or a step of the one captured copy of an action. */
  datatype StepRef = JobStep(index: nat) | ActionStep(uses: string, index: nat)

  // ----- which steps are local composite actions -----

  /** What the program takes for a local action; nothing below depends on it. */
  predicate IsLocalUse(uses: string) {
    var text := TrimSpace(uses);
    "./" <= text || text == "." || "../" <= text
  }

  // ----- the graph -----

  /** The steps of the action that a `uses` text names, if it can be entered. */
  function ActionSteps(w: Workflow, uses: string): seq<Step> {
    if w.read(uses).Action? && w.read(uses).composite then w.read(uses).steps else []
  }

  predicate Exists(w: Workflow, ref: StepRef) {
    match ref
    case JobStep(i) => i < |w.job|
    case ActionStep(u, i) => i < |ActionSteps(w, u)|
  }

  function UsesOf(w: Workflow, ref: StepRef): string
    requires Exists(w, ref)
  {
    match ref
    case JobStep(i) => w.job[i].uses
    case ActionStep(u, i) => ActionSteps(w, u)[i].uses
  }

  predicate IsComposite(w: Workflow, ref: StepRef) {
    Exists(w, ref) && w.local(UsesOf(w, ref))
  }

  predicate IsChild(w: Workflow, parent: StepRef, child: StepRef) {
    IsComposite(w, parent) && child.ActionStep? && child.uses == UsesOf(w, parent) && Exists(w, child)
  }

  /** Some chain of uses leads from the job to the step in `depth` steps. */
  ghost predicate Reaches(w: Workflow, ref: StepRef, depth: nat)
    decreases depth
  {
    if depth == 0 then ref.JobStep? && Exists(w, ref)
    else exists parent :: Reaches(w, parent, depth - 1) && IsChild(w, parent, ref)
  }

  /** The step is reached without going below the depth limit. */
  ghost predicate Renderable(w: Workflow, ref: StepRef, limit: nat) {
    exists depth: nat :: depth <= limit && Reaches(w, ref, depth)
  }

  function JobRefs(w: Workflow): (refs: seq<StepRef>)
    ensures forall ref :: ref in refs <==> ref.JobStep? && Exists(w, ref)
  {
    var refs := seq(|w.job|, i requires 0 <= i => JobStep(i));
    assert forall i | 0 <= i < |w.job| :: refs[i] == JobStep(i);
    refs
  }

  function ActionRefs(w: Workflow, uses: string): (refs: seq<StepRef>)
    ensures forall ref :: ref in refs <==> ref.ActionStep? && ref.uses == uses && Exists(w, ref)
  {
    var refs := seq(|ActionSteps(w, uses)|, i requires 0 <= i => ActionStep(uses, i));
    assert forall i | 0 <= i < |refs| :: refs[i] == ActionStep(uses, i);
    refs
  }

  // ----- capture -----

  /** Where the sweep stands: what it has handled, what it has captured, which texts it has read. */
  datatype Sweep = Sweep(handled: set<StepRef>, captured: set<StepRef>, sources: set<string>)

  /** Exactly the handled composite steps are captured. */
  ghost predicate Exact(w: Workflow, s: Sweep) {
    forall ref :: ref in s.captured <==> ref in s.handled && IsComposite(w, ref)
  }

  /** The text of a handled composite step has been read, and the steps it holds are handled or wait. */
  ghost predicate Closed(w: Workflow, s: Sweep, waiting: seq<StepRef>) {
    && (forall ref | ref in s.handled && IsComposite(w, ref) :: UsesOf(w, ref) in s.sources)
    && (forall uses, ref | uses in s.sources && ref in ActionRefs(w, uses) :: ref in s.handled || ref in waiting)
  }

  /** Everything handled or waiting is reached. */
  ghost predicate Sound(w: Workflow, s: Sweep, waiting: seq<StepRef>, depth: nat) {
    && (forall ref | ref in s.handled :: Renderable(w, ref, depth))
    && (forall ref | ref in waiting :: Exists(w, ref) && Reaches(w, ref, depth))
  }

  function Handle(w: Workflow, s: Sweep, ref: StepRef): Sweep
    requires Exists(w, ref)
  {
    if w.local(UsesOf(w, ref)) then Sweep(s.handled + {ref}, s.captured + {ref}, s.sources + {UsesOf(w, ref)})
    else s.(handled := s.handled + {ref})
  }

  /** The steps that handling a step puts in the next level. */
  function Opens(w: Workflow, s: Sweep, ref: StepRef): seq<StepRef>
    requires Exists(w, ref)
  {
    if w.local(UsesOf(w, ref)) && UsesOf(w, ref) !in s.sources then ActionRefs(w, UsesOf(w, ref)) else []
  }

  lemma HandleKeepsClosed(w: Workflow, s: Sweep, ref: StepRef, steps: seq<StepRef>, next: seq<StepRef>)
    requires Exists(w, ref) && Closed(w, s, [ref] + steps + next)
    ensures Closed(w, Handle(w, s, ref), steps + (next + Opens(w, s, ref)))
  {
    var s', waiting := Handle(w, s, ref), steps + (next + Opens(w, s, ref));
    forall uses, x | uses in s'.sources && x in ActionRefs(w, uses)
      ensures x in s'.handled || x in waiting
    {
      if uses in s.sources {
        assert x in s.handled || x in [ref] + steps + next;
      }
    }
  }

  lemma OpensChildren(w: Workflow, s: Sweep, ref: StepRef, depth: nat)
    requires Exists(w, ref) && Reaches(w, ref, depth)
    ensures forall x | x in Opens(w, s, ref) :: Exists(w, x) && Reaches(w, x, depth + 1)
  {
    forall x | x in Opens(w, s, ref)
      ensures Reaches(w, x, depth + 1)
    {
      assert IsChild(w, ref, x);
    }
  }

  /** One level of the sweep. */
  method CaptureLevel(w: Workflow, s0: Sweep, steps: seq<StepRef>, ghost depth: nat)
    returns (s: Sweep, next: seq<StepRef>)
    requires Exact(w, s0) && Closed(w, s0, steps) && Sound(w, s0, steps, depth)
    ensures Exact(w, s) && Closed(w, s, next) && Sound(w, s, next, depth + 1)
    ensures forall ref :: ref in s.handled <==> ref in s0.handled || ref in steps
  {
    s, next := s0, [];
    var i := 0;
    assert steps == steps[i..] + next;
    while i < |steps|
      invariant 0 <= i <= |steps|
      invariant Exact(w, s)
      invariant Closed(w, s, steps[i..] + next)
      invariant forall ref | ref in next :: Exists(w, ref) && Reaches(w, ref, depth + 1)
      invariant forall ref :: ref in s.handled <==> ref in s0.handled || ref in steps[..i]
    {
      var ref := steps[i];
      assert steps[i..] == [ref] + steps[i + 1..];
      assert steps[..i + 1] == steps[..i] + [ref];
      ghost var before, queued := s, next;
      s := s.(handled := s.handled + {ref});
      if w.local(UsesOf(w, ref)) {
        var uses := UsesOf(w, ref);
        s := s.(captured := s.captured + {ref});
        if uses !in s.sources {
          s := s.(sources := s.sources + {uses});
          next := next + ActionRefs(w, uses);
        }
      }
      assert s == Handle(w, before, ref) && next == queued + Opens(w, before, ref);
      HandleKeepsClosed(w, before, ref, steps[i + 1..], queued);
      OpensChildren(w, before, ref, depth);
      i := i + 1;
    }
    assert steps[..i] == steps && steps[i..] + next == next;
    HandledIsReached(w, s0, s, steps, depth);
  }

  lemma HandledIsReached(w: Workflow, s0: Sweep, s: Sweep, steps: seq<StepRef>, depth: nat)
    requires Sound(w, s0, steps, depth)
    requires forall ref :: ref in s.handled <==> ref in s0.handled || ref in steps
    ensures forall ref | ref in s.handled :: Renderable(w, ref, depth + 1)
  {
    forall ref | ref in s.handled
      ensures Renderable(w, ref, depth + 1)
    {
      if ref in s0.handled {
        var d: nat :| d <= depth && Reaches(w, ref, d);
      }
    }
  }

  /** Everything reached above `depth` has been handled. */
  ghost predicate Complete(w: Workflow, s: Sweep, depth: nat) {
    forall d: nat, ref | d < depth && Reaches(w, ref, d) :: ref in s.handled
  }

  /** Everything reached at `depth` has been handled or waits. */
  ghost predicate Frontier(w: Workflow, s: Sweep, waiting: seq<StepRef>, depth: nat) {
    forall ref | Reaches(w, ref, depth) :: ref in s.handled || ref in waiting
  }

  lemma LevelIsComplete(w: Workflow, s0: Sweep, steps: seq<StepRef>, s: Sweep, next: seq<StepRef>, depth: nat)
    requires Complete(w, s0, depth) && Frontier(w, s0, steps, depth) && Closed(w, s, next)
    requires forall ref :: ref in s.handled <==> ref in s0.handled || ref in steps
    ensures Complete(w, s, depth + 1) && Frontier(w, s, next, depth + 1)
  {
    forall ref | Reaches(w, ref, depth + 1)
      ensures ref in s.handled || ref in next
    {
      var parent :| Reaches(w, parent, depth) && IsChild(w, parent, ref);
      assert parent in s.handled;
      assert ref in ActionRefs(w, UsesOf(w, parent));
    }
    forall d: nat, ref | d < depth + 1 && Reaches(w, ref, d)
      ensures ref in s.handled
    {
      assert d < depth || d == depth;
    }
  }

  /** Once nothing waits, whatever is reached has been handled, however deep. */
  lemma {:induction false} NothingWaits(w: Workflow, s: Sweep, depth: nat, d: nat, ref: StepRef)
    requires Closed(w, s, []) && Complete(w, s, depth) && Frontier(w, s, [], depth)
    requires Reaches(w, ref, d)
    ensures ref in s.handled
    decreases d
  {
    if d > depth {
      var parent :| Reaches(w, parent, d - 1) && IsChild(w, parent, ref);
      NothingWaits(w, s, depth, d - 1, parent);
      assert ref in ActionRefs(w, UsesOf(w, parent));
    }
  }

  lemma SweepEnds(w: Workflow, s: Sweep, steps: seq<StepRef>, depth: nat)
    requires Closed(w, s, steps) && Complete(w, s, depth) && Frontier(w, s, steps, depth)
    requires depth > DepthLimit || steps == []
    ensures forall ref | Renderable(w, ref, DepthLimit) :: ref in s.handled
  {
    forall ref | Renderable(w, ref, DepthLimit)
      ensures ref in s.handled
    {
      var d: nat :| d <= DepthLimit && Reaches(w, ref, d);
      if d >= depth { NothingWaits(w, s, depth, d, ref); }
    }
  }

  lemma StillRenderable(w: Workflow, s0: Sweep, steps: seq<StepRef>, s: Sweep, depth: nat)
    requires depth <= DepthLimit && Sound(w, s0, steps, depth)
    requires forall ref | ref in s0.handled :: Renderable(w, ref, DepthLimit)
    requires forall ref :: ref in s.handled <==> ref in s0.handled || ref in steps
    ensures forall ref | ref in s.handled :: Renderable(w, ref, DepthLimit)
  {
  }

  /** Captures exactly the composite steps that some chain of uses reaches within the depth limit. */
  method PrepareSources(w: Workflow) returns (captured: set<StepRef>)
    ensures forall ref :: ref in captured <==> IsComposite(w, ref) && Renderable(w, ref, DepthLimit)
  {
    var s, steps, depth := Sweep({}, {}, {}), JobRefs(w), 0;
    while depth <= DepthLimit && steps != []
      invariant depth <= DepthLimit + 1
      invariant Exact(w, s) && Closed(w, s, steps) && Sound(w, s, steps, depth)
      invariant forall ref | ref in s.handled :: Renderable(w, ref, DepthLimit)
      invariant Complete(w, s, depth) && Frontier(w, s, steps, depth)
      decreases DepthLimit + 1 - depth
    {
      ghost var before, level := s, steps;
      s, steps := CaptureLevel(w, s, steps, depth);
      LevelIsComplete(w, before, level, s, steps, depth);
      StillRenderable(w, before, level, s, depth);
      depth := depth + 1;
    }
    SweepEnds(w, s, steps, depth);
    captured := s.captured;
  }

  // ----- rendering -----

  /** A step where it is rendered: the chain of composite steps that led to it, then the step. */
  type Chain = seq<StepRef>

  /** Rendering ends in a script, in a refusal, or in a dereference of a source that is not there. */
  datatype Outcome = Rendered(script: seq<Chain>) | TooDeep | Refused | Crashed

  /** What a step's condition and content lead to where it is rendered: it is skipped, it is refused, or it
      is rendered, and what follows its own steps (outputs, restoring the environment) succeeds or not. */
  datatype Verdict = Skip | Refuse | Render(concludes: bool)

  /** A chain fixes the inputs, the environment and the earlier outputs a condition can see. */
  type Conditions = Chain -> Verdict

  function RenderSteps(w: Workflow, captured: set<StepRef>, c: Conditions, path: Chain, todo: seq<StepRef>): Outcome
    requires forall ref | ref in todo :: Exists(w, ref)
    decreases DepthLimit + 1 - |path|, |todo|, 1
  {
    if |path| > DepthLimit then TooDeep
    else if todo == [] then Rendered([])
    else Then(RenderStep(w, captured, c, path, todo[0]), RenderSteps(w, captured, c, path, todo[1..]))
  }

  function Then(first: Outcome, rest: Outcome): Outcome {
    if !first.Rendered? then first
    else if !rest.Rendered? then rest
    else Rendered(first.script + rest.script)
  }

  function RenderStep(w: Workflow, captured: set<StepRef>, c: Conditions, path: Chain, ref: StepRef): Outcome
    requires Exists(w, ref) && |path| <= DepthLimit
    decreases DepthLimit + 1 - |path|, 0, 0
  {
    var here, uses := path + [ref], UsesOf(w, ref);
    match c(here)
    case Skip => Rendered([])
    case Refuse => Refused
    case Render(concludes) =>
      var inner :=
        if !w.local(uses) then Rendered([])
        else if ref !in captured then Crashed
        else if !w.read(uses).Action? || !w.read(uses).composite then Refused
        else RenderSteps(w, captured, c, here, ActionRefs(w, uses));
      if inner.Rendered? && !concludes then Refused else Then(Rendered([here]), inner)
  }

  /** The loop over the steps of one level, which appends to the script. */
  method AppendSteps(w: Workflow, captured: set<StepRef>, c: Conditions, path: Chain, steps: seq<StepRef>)
    returns (r: Outcome)
    requires forall ref | ref in steps :: Exists(w, ref)
    ensures r == RenderSteps(w, captured, c, path, steps)
    decreases DepthLimit + 1 - |path|, 1
  {
    if |path| > DepthLimit { return TooDeep; }
    var script: seq<Chain> := [];
    var i := 0;
    while i < |steps|
      invariant 0 <= i <= |steps|
      invariant RenderSteps(w, captured, c, path, steps) ==
                Then(Rendered(script), RenderSteps(w, captured, c, path, steps[i..]))
    {
      var step := AppendStep(w, captured, c, path, steps[i]);
      assert steps[i..][0] == steps[i] && steps[i..][1..] == steps[i + 1..];
      ThenAssociates(Rendered(script), step, RenderSteps(w, captured, c, path, steps[i + 1..]));
      if !step.Rendered? { return step; }
      script := script + step.script;
      i := i + 1;
    }
    assert steps[i..] == [];
    r := Rendered(script);
  }

  method AppendStep(w: Workflow, captured: set<StepRef>, c: Conditions, path: Chain, ref: StepRef) returns (r: Outcome)
    requires Exists(w, ref) && |path| <= DepthLimit
    ensures r == RenderStep(w, captured, c, path, ref)
    decreases DepthLimit + 1 - |path|, 0
  {
    var here, uses := path + [ref], UsesOf(w, ref);
    var verdict := c(here);
    if verdict.Skip? { return Rendered([]); }
    if verdict.Refuse? { return Refused; }
    var script := [here];
    if w.local(uses) {
      if ref !in captured { return Crashed; }
      if !w.read(uses).Action? || !w.read(uses).composite { return Refused; }
      var inner := AppendSteps(w, captured, c, here, ActionRefs(w, uses));
      if !inner.Rendered? { return inner; }
      script := script + inner.script;
    }
    if !verdict.concludes { return Refused; }
    r := Rendered(script);
  }

  lemma ThenAssociates(a: Outcome, b: Outcome, c: Outcome)
    ensures Then(a, Then(b, c)) == Then(Then(a, b), c)
  {
    if a.Rendered? && b.Rendered? && c.Rendered? {
      assert a.script + (b.script + c.script) == (a.script + b.script) + c.script;
    }
  }

  /** Breadth-first depth never exceeds rendering depth: with the reachable steps captured, rendering never
      dereferences a missing source. */
  lemma {:induction false} RenderingIsSafe(w: Workflow, captured: set<StepRef>, c: Conditions, path: Chain,
                                           todo: seq<StepRef>)
    requires forall ref | ref in todo :: Exists(w, ref) && Reaches(w, ref, |path|)
    requires CapturesAll(w, captured)
    ensures !RenderSteps(w, captured, c, path, todo).Crashed?
    decreases DepthLimit + 1 - |path|, |todo|, 1
  {
    if |path| <= DepthLimit && todo != [] {
      RenderingIsSafe(w, captured, c, path, todo[1..]);
      StepIsSafe(w, captured, c, path, todo[0]);
    }
  }

  ghost predicate CapturesAll(w: Workflow, captured: set<StepRef>) {
    forall ref | IsComposite(w, ref) && Renderable(w, ref, DepthLimit) :: ref in captured
  }

  lemma IsCaptured(w: Workflow, captured: set<StepRef>, ref: StepRef, depth: nat)
    requires CapturesAll(w, captured) && IsComposite(w, ref) && depth <= DepthLimit && Reaches(w, ref, depth)
    ensures ref in captured
  {
    assert Renderable(w, ref, DepthLimit);
  }

  lemma ChildrenAreReached(w: Workflow, ref: StepRef, depth: nat)
    requires IsComposite(w, ref) && Reaches(w, ref, depth)
    ensures forall child | child in ActionRefs(w, UsesOf(w, ref)) :: Exists(w, child) && Reaches(w, child, depth + 1)
  {
    forall child | child in ActionRefs(w, UsesOf(w, ref))
      ensures Reaches(w, child, depth + 1)
    {
      assert IsChild(w, ref, child);
    }
  }

  lemma {:induction false} StepIsSafe(w: Workflow, captured: set<StepRef>, c: Conditions, path: Chain, ref: StepRef)
    requires |path| <= DepthLimit && Exists(w, ref) && Reaches(w, ref, |path|)
    requires CapturesAll(w, captured)
    ensures !RenderStep(w, captured, c, path, ref).Crashed?
    decreases DepthLimit + 1 - |path|, 0, 0
  {
    if w.local(UsesOf(w, ref)) {
      assert IsComposite(w, ref);
      IsCaptured(w, captured, ref, |path|);
      ChildrenAreReached(w, ref, |path|);
      RenderingIsSafe(w, captured, c, path + [ref], ActionRefs(w, UsesOf(w, ref)));
    }
  }

  // ----- what a script holds -----

  /** The steps that rendering goes through at the end of a chain. */
  function Level(w: Workflow, path: Chain): seq<StepRef> {
    if path == [] then JobRefs(w)
    else if IsComposite(w, path[|path| - 1]) then ActionRefs(w, UsesOf(w, path[|path| - 1]))
    else []
  }

  /** A chain of uses from the job, none of which is skipped. */
  predicate Live(w: Workflow, c: Conditions, chain: Chain)
    decreases |chain|
  {
    chain == [] ||
    (var path, ref := chain[..|chain| - 1], chain[|chain| - 1];
     Live(w, c, path) && ref in Level(w, path) && !c(chain).Skip?)
  }

  lemma LiveStep(w: Workflow, c: Conditions, path: Chain, ref: StepRef)
    requires Live(w, c, path) && ref in Level(w, path) && !c(path + [ref]).Skip?
    ensures Live(w, c, path + [ref])
  {
    assert (path + [ref])[..|path|] == path;
  }

  /** Whatever a script holds is a live chain of at most the depth limit. */
  lemma {:induction false} RenderedIsLive(w: Workflow, captured: set<StepRef>, c: Conditions, path: Chain,
                                          todo: seq<StepRef>, chain: Chain)
    requires forall ref | ref in todo :: Exists(w, ref) && ref in Level(w, path)
    requires Live(w, c, path)
    requires RenderSteps(w, captured, c, path, todo).Rendered? &&
             chain in RenderSteps(w, captured, c, path, todo).script
    ensures Live(w, c, chain) && 0 < |chain| <= DepthLimit + 1
    decreases DepthLimit + 1 - |path|, |todo|
  {
    var ref := todo[0];
    var step := RenderStep(w, captured, c, path, ref);
    if chain in step.script {
      LiveStep(w, c, path, ref);
      if chain != path + [ref] {
        RenderedIsLive(w, captured, c, path + [ref], ActionRefs(w, UsesOf(w, ref)), chain);
      }
    } else {
      RenderedIsLive(w, captured, c, path, todo[1..], chain);
    }
  }

  /** Within a rendered level, a step that is not skipped is in the script with everything below it. */
  lemma {:induction false} StepIsRendered(w: Workflow, captured: set<StepRef>, c: Conditions, path: Chain,
                                          todo: seq<StepRef>, ref: StepRef)
    requires forall r | r in todo :: Exists(w, r)
    requires RenderSteps(w, captured, c, path, todo).Rendered? && ref in todo && !c(path + [ref]).Skip?
    ensures |path| <= DepthLimit && path + [ref] in RenderSteps(w, captured, c, path, todo).script
    ensures IsComposite(w, ref) ==> Within(RenderSteps(w, captured, c, path + [ref], ActionRefs(w, UsesOf(w, ref))),
                                           RenderSteps(w, captured, c, path, todo))
    decreases |todo|
  {
    if ref == todo[0] {
      assert path + [ref] in RenderStep(w, captured, c, path, ref).script;
    } else {
      StepIsRendered(w, captured, c, path, todo[1..], ref);
    }
  }

  ghost predicate Within(inner: Outcome, outer: Outcome) {
    inner.Rendered? && outer.Rendered? && forall chain | chain in inner.script :: chain in outer.script
  }

  /** The level at the end of the chain, if it has one, is part of the whole script. */
  ghost predicate LevelWithin(w: Workflow, captured: set<StepRef>, c: Conditions, chain: Chain, whole: Outcome) {
    EndsInAction(w, chain) ==> Within(RenderSteps(w, captured, c, chain, Level(w, chain)), whole)
  }

  lemma DescendRendered(w: Workflow, captured: set<StepRef>, c: Conditions, chain: Chain, whole: Outcome)
    requires chain != [] && LevelWithin(w, captured, c, chain[..|chain| - 1], whole)
    requires chain[|chain| - 1] in Level(w, chain[..|chain| - 1]) && !c(chain).Skip?
    ensures whole.Rendered? && |chain| <= DepthLimit + 1 && chain in whole.script
    ensures LevelWithin(w, captured, c, chain, whole)
  {
    var path, ref := chain[..|chain| - 1], chain[|chain| - 1];
    assert chain == path + [ref];
    StepIsRendered(w, captured, c, path, Level(w, path), ref);
    if EndsInAction(w, chain) {
      assert Level(w, chain) == ActionRefs(w, UsesOf(w, ref));
    }
  }

  lemma {:induction false} LiveIsRendered(w: Workflow, captured: set<StepRef>, c: Conditions, chain: Chain,
                                          whole: Outcome)
    requires LevelWithin(w, captured, c, [], whole) && Live(w, c, chain)
    ensures LevelWithin(w, captured, c, chain, whole)
    ensures chain != [] ==> |chain| <= DepthLimit + 1 && whole.Rendered? && chain in whole.script
    decreases |chain|
  {
    if chain != [] {
      LiveIsRendered(w, captured, c, chain[..|chain| - 1], whole);
      DescendRendered(w, captured, c, chain, whole);
    }
  }

  /** The chain has a level of its own: it is empty or ends in a composite step. */
  predicate EndsInAction(w: Workflow, chain: Chain) {
    chain == [] || IsComposite(w, chain[|chain| - 1])
  }

  /** A rendered script holds exactly the live chains, and there is none longer than the depth limit allows:
      an action that reaches itself unskipped is refused, never unrolled in part. */
  lemma ScriptIsTheLiveChains(w: Workflow, captured: set<StepRef>, c: Conditions)
    requires RenderSteps(w, captured, c, [], JobRefs(w)).Rendered?
    ensures forall chain: Chain :: chain in RenderSteps(w, captured, c, [], JobRefs(w)).script <==>
              chain != [] && Live(w, c, chain)
    ensures forall chain: Chain | Live(w, c, chain) :: |chain| <= DepthLimit + 1
  {
    var script := RenderSteps(w, captured, c, [], JobRefs(w)).script;
    forall chain: Chain
      ensures chain in script <==> chain != [] && Live(w, c, chain)
      ensures Live(w, c, chain) ==> |chain| <= DepthLimit + 1
    {
      if chain in script { RenderedIsLive(w, captured, c, [], JobRefs(w), chain); }
      if Live(w, c, chain) { LiveIsRendered(w, captured, c, chain, RenderSteps(w, captured, c, [], JobRefs(w))); }
    }
  }
}

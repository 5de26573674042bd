/** A local action that is named by a reference with the shape of a reusable workflow, and by nothing else. */
module WorkflowPinsUnfollowed {
  import opened Common
  import opened YamlNodes
  import opened WorkflowPins
  import opened WorkflowJobs
  import opened WorkflowPinsSearch
  import opened WorkflowPinsTheorem
  import opened WorkflowPinsExact

  // ----- a workflow with one step -----

  predicate IsWorkflowStep(g: seq<Node>, target: string) {
    && |g| == 10
    && g[0] == Mapping([1, 2]) && g[1] == Scalar("jobs") && g[2] == Mapping([3, 4]) && g[3] == Scalar("build")
    && g[4] == Mapping([5, 6]) && g[5] == Scalar("steps") && g[6] == Sequence([7]) && g[7] == Mapping([8, 9])
    && g[8] == Scalar("uses") && g[9] == Scalar(target)
  }

  lemma StepIsWellFormed(g: seq<Node>, target: string)
    requires IsWorkflowStep(g, target)
    ensures WellFormed(g)
  {
    assert In(g, [1, 2]) && In(g, [3, 4]) && In(g, [5, 6]) && In(g, [7]) && In(g, [8, 9]) && In(g, []);
    assert forall n | 0 <= n < |g| :: Rank(g[n]) == 0 && In(g, Children(g[n]));
  }

  /** `jobs: {build: {steps: [{uses: target}]}}` */
  function WorkflowStep(target: string): (doc: Doc)
    ensures IsWorkflowStep(doc.graph, target) && doc.root == 0
  {
    var g := [Mapping([1, 2]), Scalar("jobs"), Mapping([3, 4]), Scalar("build"), Mapping([5, 6]), Scalar("steps"),
              Sequence([7]), Mapping([8, 9]), Scalar("uses"), Scalar(target)];
    StepIsWellFormed(g, target);
    ParsedDocument(g, 0)
  }

  /** A list of one step. */
  lemma OneStep(g: Graph, list: Id, step: Id, k: Id, use: Id)
    requires list < |g| && step < |g| && k < |g| && use < |g|
    requires g[list] == Sequence([step]) && g[step] == Mapping([k, use]) && g[k] == Scalar("uses")
    ensures UsesOfStepLists(g, [list]) == [use]
  {
    SingleEntry(g, step, k, use, "uses", "uses");
    assert [step][1..] == [] && UsesOfSteps(g, []) == [];
    assert UsesOfSteps(g, [step]) == [use];
    assert [list][1..] == [] && UsesOfStepLists(g, []) == [];
  }

  lemma JobWithSteps(g: Graph, job: Id, k: Id, list: Id)
    requires job < |g| && k < |g| && list < |g| && g[job] == Mapping([k, list]) && g[k] == Scalar("steps")
    ensures UsesOfJob(g, job) == UsesOfStepLists(g, [list])
  {
    SingleEntry(g, job, k, list, "steps", "uses");
    SingleEntry(g, job, k, list, "steps", "steps");
  }

  lemma OneJob(g: Graph, jobs: Id, name: Id, job: Id)
    requires jobs < |g| && job < |g| && g[jobs] == Mapping([name, job]) && g[job].Mapping?
    ensures UsesOfJobs(g, [jobs]) == UsesOfJob(g, job)
  {
    assert [name, job][2..] == [] && UsesOfJobEntries(g, []) == [];
    assert Resolve(g, job) == job;
    assert UsesOfJobEntries(g, [name, job]) == UsesOfJob(g, job);
    assert [jobs][1..] == [] && UsesOfJobs(g, []) == [];
  }

  lemma StepIsTheUse(g: Graph, target: string)
    requires IsWorkflowStep(g, target)
    ensures WorkflowUses(g, 0) == [9]
  {
    SingleEntry(g, 0, 1, 2, "jobs", "jobs");
    OneJob(g, 2, 3, 4);
    JobWithSteps(g, 4, 5, 6);
    OneStep(g, 6, 7, 8, 9);
  }

  lemma OnlyKey(g: Graph, n: Id, k: Id, v: Id, key: string, job: Id)
    requires n < |g| && k < |g| && g[n] == Mapping([k, v]) && g[k].Scalar? && HasOwnEntry(g, n, key, job)
    ensures key == g[k].value
  {
    var i: nat :| EntryAt(g, [k, v], i, key, job);
    assert i == 0;
  }

  lemma OnlyValue(g: Graph, n: Id, k: Id, v: Id, key: string, value: Id)
    requires n < |g| && k < |g| && g[n] == Mapping([k, v]) && g[k] == Scalar(key) && key != "<<"
    requires ValueOf(g, n, key, value)
    ensures value == v
  {
    SingleEntry(g, n, k, v, key, key);
    MappingValuesIff(g, n, key, value);
  }

  /** The only entry of `jobs` is no merge. */
  lemma EntryIsBuild(g: Graph, target: string, key: string, job: Id)
    requires IsWorkflowStep(g, target) && EntryJob(g, 0, key, job)
    ensures key == "build"
  {
    var jobs: Id :| ValueOf(g, 0, "jobs", jobs) && HasOwnEntry(g, jobs, key, job);
    OnlyValue(g, 0, 1, 2, "jobs", jobs);
    OnlyKey(g, 2, 3, 4, key, job);
  }

  lemma StepIsPlain(doc: Doc, target: string)
    requires doc.root == 0 && IsWorkflowStep(doc.graph, target)
    ensures MergesHideNothing(doc.graph, 0) && MergesAddNothing(doc.graph, 0) && TrueDocUse(doc, Scalar(target))
  {
    var g := doc.graph;
    forall job: Id
      ensures !EntryJob(g, 0, "<<", job)
    {
      if EntryJob(g, 0, "<<", job) {
        EntryIsBuild(g, target, "<<", job);
      }
    }
    PlainJobsAreScanned(g, 0);
    StepIsTheUse(g, target);
    WorkflowUsesIff(g, 0, 9);
    SeenIsTrueUse(g, 0, 9);
    assert g[Resolve(g, 9)] == Scalar(target);
  }

  // ----- the check passes it -----

  lemma ReusableIsLocal(target: string)
    requires IsReusable(target)
    ensures LocalPrefix <= target
  {
    assert "./.github/workflows/"[..2] == LocalPrefix;
  }

  lemma UnfollowedPasses(repo: Repo, s: Search, path: string, doc: Doc, use: Id)
    requires use < |doc.graph| && WorkflowUses(doc.graph, doc.root) == [use]
    requires doc.graph[use].Scalar? && IsReusable(doc.graph[use].value)
    ensures CheckDocument(repo, s, path, doc) == s
  {
    var g, target := doc.graph, doc.graph[use].value;
    ReusableIsLocal(target);
    assert [use][1..] == [] && NodeFindings(path, g, []) == [] && CheckLocals(repo, s, path, g, []) == s;
    assert NodeFindings(path, g, [use]) == [];
    assert CheckLocalAction(repo, s, path, target) == s;
    assert CheckLocals(repo, s, path, g, [use]) == s;
    assert s.findings + [] == s.findings;
  }

  lemma PlainWorkflow(e: Entry, doc: Doc)
    requires e.docs == [doc] && MergesHideNothing(doc.graph, doc.root) && MergesAddNothing(doc.graph, doc.root)
    ensures NothingHidden([e]) && NothingAdded([e])
  {
    assert forall x | x in [e] :: x == e;
    assert forall x | x in [doc] :: x == doc;
  }

  lemma BadRootIsNotPinned(repo: Repo, e: Entry, doc: Doc, node: Node, m: string)
    requires IsWorkflow(e) && e.docs == [doc] && TrueDocUse(doc, node) && Names(repo, node, m) && !FileGood(repo, m)
    ensures !AllPinned(repo, [e])
  {
    OneDocumentUse(e, doc, node);
    assert IsNamedRoot(repo, [e], m);
    RootIsReached(AllLinksOf(repo, [e]), m);
  }

  /** In every repository, a workflow whose only reference has the shape of a reusable workflow passes the check,
      and merges have nothing to do with it; if the reference names a local action with a bad manifest, not
      everything is pinned. */
  lemma UnfollowedActionPasses(repo: Repo, e: Entry, target: string, m: string)
    requires IsReusable(target) && Manifests(repo, target).Ok? && m in Manifests(repo, target).value
    requires IsWorkflow(e) && e.docs == [WorkflowStep(target)] && e.complete && !FileGood(repo, m)
    ensures CheckEntries(repo, Search({}, []), [e]).findings == []
    ensures NothingHidden([e]) && NothingAdded([e]) && !AllPinned(repo, [e])
  {
    var doc := WorkflowStep(target);
    StepIsTheUse(doc.graph, target);
    UnfollowedPasses(repo, Search({}, []), e.path, doc, 9);
    OneDocumentPasses(repo, e, doc);
    StepIsPlain(doc, target);
    PlainWorkflow(e, doc);
    ReusableIsLocal(target);
    BadRootIsNotPinned(repo, e, doc, Scalar(target), m);
  }

  // ----- one such repository -----

  predicate IsManifestStep(g: seq<Node>, target: string) {
    && |g| == 8
    && g[0] == Mapping([1, 2]) && g[1] == Scalar("runs") && g[2] == Mapping([3, 4]) && g[3] == Scalar("steps")
    && g[4] == Sequence([5]) && g[5] == Mapping([6, 7]) && g[6] == Scalar("uses") && g[7] == Scalar(target)
  }

  lemma ManifestIsWellFormed(g: seq<Node>, target: string)
    requires IsManifestStep(g, target)
    ensures WellFormed(g)
  {
    assert In(g, [1, 2]) && In(g, [3, 4]) && In(g, [5]) && In(g, [6, 7]) && In(g, []);
    assert forall n | 0 <= n < |g| :: Rank(g[n]) == 0 && In(g, Children(g[n]));
  }

  /** `runs: {steps: [{uses: target}]}` */
  function ManifestStep(target: string): (doc: Doc)
    ensures IsManifestStep(doc.graph, target) && doc.root == 0
  {
    var g := [Mapping([1, 2]), Scalar("runs"), Mapping([3, 4]), Scalar("steps"), Sequence([5]), Mapping([6, 7]),
              Scalar("uses"), Scalar(target)];
    ManifestIsWellFormed(g, target);
    ParsedDocument(g, 0)
  }

  lemma ManifestUseIs(g: Graph, target: string)
    requires IsManifestStep(g, target)
    ensures IsManifestUse(g, 0, 7) && g[Resolve(g, 7)] == Scalar(target)
  {
    SingleEntry(g, 0, 1, 2, "runs", "runs");
    SingleEntry(g, 2, 3, 4, "steps", "steps");
    OneStep(g, 4, 5, 6, 7);
    assert [2][1..] == [] && UsesOfRuns(g, []) == [];
    assert ManifestUses(g, 0) == [7];
    ManifestUsesIff(g, 0, 7);
  }

  lemma UnpinnedManifestIsBad(repo: Repo, m: string, target: string)
    requires m in repo.files && repo.files[m] == Some(ManifestStep(target)) && !ValidTarget(target)
    ensures !FileGood(repo, m)
  {
    var doc := ManifestStep(target);
    ManifestUseIs(doc.graph, target);
    assert ManifestUse(repo, m, Scalar(target)) && !UseGood(repo, Scalar(target));
  }

  /** Up and out of the workflows directory, to a directory whose name ends like a workflow's. */
  const Detour := "./.github/workflows/../b.yml"

  const DetourRepo: Repo :=
    Repo(map[".github/b.yml/action.yml" := Some(ManifestStep("owner/action@main"))], {},
         target => if target == Detour then Some(".github/b.yml") else None)

  lemma DetourIsReusable()
    ensures IsReusable(Detour)
  {
    assert Detour[|Detour| - 4..] == ".yml";
  }

  lemma DetourManifest()
    ensures Manifests(DetourRepo, Detour) == Ok([".github/b.yml/action.yml"])
  {
    var repo, dir := DetourRepo, ".github/b.yml";
    assert repo.locate(Detour) == Some(dir);
    var yml, yaml := dir + "/action.yml", dir + "/action.yaml";
    assert yml == ".github/b.yml/action.yml" && |yaml| == |yml| + 1;
    assert yml in repo.files && yaml !in repo.files;
    assert [yml] + [] == [yml];
  }

  /** A step uses the action at `./.github/workflows/../b.yml`, which uses `owner/action@main`: no finding. */
  lemma DetourPasses()
    ensures var entries := [Entry("ci.yml", false, [WorkflowStep(Detour)], true)];
            CheckEntries(DetourRepo, Search({}, []), entries).findings == [] && !AllPinned(DetourRepo, entries)
  {
    var e := Entry("ci.yml", false, [WorkflowStep(Detour)], true);
    assert IsWorkflow(e) by {
      assert "ci.yml"[2..] == ".yml";
    }
    DetourIsReusable();
    DetourManifest();
    WorkflowJobs.NotPinned();
    UnpinnedManifestIsBad(DetourRepo, ".github/b.yml/action.yml", "owner/action@main");
    UnfollowedActionPasses(DetourRepo, e, Detour, ".github/b.yml/action.yml");
  }
}

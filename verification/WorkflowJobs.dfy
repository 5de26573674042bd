/**
  The jobs a workflow really has, those merged into its `jobs` mapping included, and exactly when the scan,
  which takes the entries of that mapping one by one, sees all their uses.
 */
module WorkflowJobs {
  import opened YamlNodes
  import opened WorkflowPins

  /** An entry of a `jobs` mapping, whatever its key. */
  ghost predicate EntryJob(g: Graph, root: Id, key: string, job: Id) {
    exists jobs: Id :: ValueOf(g, root, "jobs", jobs) && HasOwnEntry(g, jobs, key, job)
  }

  ghost predicate HasOwnEntry(g: Graph, n: Id, key: string, v: Id) {
    n < |g| && HasEntry(g, Resolve(g, n), key, v)
  }

  /** A job that one or more merges bring into a `jobs` mapping. */
  ghost predicate MergedJob(g: Graph, root: Id, job: Id) {
    exists jobs: Id :: ValueOf(g, root, "jobs", jobs) && BroughtIn(g, jobs, job)
  }

  ghost predicate BroughtIn(g: Graph, n: Id, v: Id) {
    exists key, path :: key != "<<" && Leads(g, n, path, key, v) && |path| > 1
  }

  /** A job of the workflow: the value of any key but the merge key in a `jobs` mapping, merges included. */
  ghost predicate IsJob(g: Graph, root: Id, job: Id) {
    exists jobs: Id :: ValueOf(g, root, "jobs", jobs) && HoldsJob(g, jobs, job)
  }

  ghost predicate HoldsJob(g: Graph, n: Id, job: Id) {
    exists key :: key != "<<" && ValueOf(g, n, key, job)
  }

  /** A use of any job of the workflow. */
  ghost predicate IsTrueUse(g: Graph, root: Id, use: Id) {
    exists job: Id :: IsJob(g, root, job) && JobUse(g, job, use)
  }

  /** A use of an entry of a `jobs` mapping, which is what is scanned. */
  ghost predicate IsEntryUse(g: Graph, root: Id, use: Id) {
    exists key: string, job: Id :: EntryJob(g, root, key, job) && JobUse(g, job, use)
  }

  /** Read off the document: a job that a merge brings in has no use that the entries do not have. */
  ghost predicate MergesHideNothing(g: Graph, root: Id) {
    forall job: Id, use: Id | MergedJob(g, root, job) && JobUse(g, job, use) :: IsEntryUse(g, root, use)
  }

  /** Read off the document: what a merge key holds, taken for a job, has no use that no job has. */
  ghost predicate MergesAddNothing(g: Graph, root: Id) {
    forall job: Id, use: Id | EntryJob(g, root, "<<", job) && JobUse(g, job, use) :: IsTrueUse(g, root, use)
  }

  // ----- own entries and merged ones -----

  lemma OwnEntryLeads(g: Graph, n: Id, key: string, v: Id)
    requires HasOwnEntry(g, n, key, v)
    ensures ValueOf(g, n, key, v)
  {
    assert Leads(g, n, [Resolve(g, n)], key, v);
  }

  lemma OwnIsHeld(g: Graph, n: Id, key: string, job: Id)
    requires key != "<<" && HasOwnEntry(g, n, key, job)
    ensures HoldsJob(g, n, job)
  {
    OwnEntryLeads(g, n, key, job);
  }

  lemma BroughtInIsHeld(g: Graph, n: Id, job: Id)
    requires BroughtIn(g, n, job)
    ensures HoldsJob(g, n, job)
  {
    var key, path :| key != "<<" && Leads(g, n, path, key, job) && |path| > 1;
    assert ValueOf(g, n, key, job);
  }

  /** A job that is held is an own entry, or is brought in. */
  lemma HeldIsOwn(g: Graph, n: Id, job: Id) returns (key: string)
    requires HoldsJob(g, n, job) && !BroughtIn(g, n, job)
    ensures key != "<<" && HasOwnEntry(g, n, key, job)
  {
    key :| key != "<<" && ValueOf(g, n, key, job);
    var path :| Leads(g, n, path, key, job);
    assert |path| == 1;
  }

  lemma EntryIsJob(g: Graph, root: Id, key: string, job: Id)
    requires key != "<<" && EntryJob(g, root, key, job)
    ensures IsJob(g, root, job)
  {
    var jobs: Id :| ValueOf(g, root, "jobs", jobs) && HasOwnEntry(g, jobs, key, job);
    OwnIsHeld(g, jobs, key, job);
  }

  lemma MergedIsJob(g: Graph, root: Id, job: Id)
    requires MergedJob(g, root, job)
    ensures IsJob(g, root, job)
  {
    var jobs: Id :| ValueOf(g, root, "jobs", jobs) && BroughtIn(g, jobs, job);
    BroughtInIsHeld(g, jobs, job);
  }

  lemma JobIsEntry(g: Graph, root: Id, job: Id) returns (key: string)
    requires IsJob(g, root, job) && !MergedJob(g, root, job)
    ensures EntryJob(g, root, key, job)
  {
    var jobs: Id :| ValueOf(g, root, "jobs", jobs) && HoldsJob(g, jobs, job);
    key := HeldIsOwn(g, jobs, job);
  }

  // ----- what the scan sees -----

  lemma {:induction false} SomeEntryIs(content: seq<Id>, p: Id -> bool) returns (i: nat)
    requires SomeEntry(content, p)
    ensures 2 * i + 1 < |content| && p(content[2 * i + 1])
    decreases |content|
  {
    if p(content[1]) {
      i := 0;
    } else {
      var k := SomeEntryIs(content[2..], p);
      i := k + 1;
    }
  }

  lemma {:induction false} EntryIsSome(content: seq<Id>, p: Id -> bool, i: nat)
    requires 2 * i + 1 < |content| && p(content[2 * i + 1])
    ensures SomeEntry(content, p)
    decreases i
  {
    if i > 0 {
      EntryIsSome(content[2..], p, i - 1);
    }
  }

  lemma OwnEntryIsSeen(g: Graph, jobs: Id, key: string, job: Id, use: Id)
    requires HasOwnEntry(g, jobs, key, job) && JobUse(g, job, use)
    ensures JobsUse(g, jobs, use)
  {
    var m := Resolve(g, jobs);
    var i: nat :| EntryAt(g, g[m].content, i, key, job);
    EntryIsSome(g[m].content, (x: Id) => JobUse(g, x, use), i);
  }

  lemma SeenIsOwnEntry(g: Graph, jobs: Id, use: Id) returns (key: string, job: Id)
    requires JobsUse(g, jobs, use)
    ensures HasOwnEntry(g, jobs, key, job) && JobUse(g, job, use)
  {
    var content := g[Resolve(g, jobs)].content;
    var i := SomeEntryIs(content, (x: Id) => JobUse(g, x, use));
    key, job := ScalarValue(g, content[2 * i]), content[2 * i + 1];
    assert EntryAt(g, content, i, key, job);
  }

  lemma EntryUseIsSeen(g: Graph, root: Id, use: Id)
    requires IsEntryUse(g, root, use)
    ensures IsWorkflowUse(g, root, use)
  {
    var key: string, job: Id :| EntryJob(g, root, key, job) && JobUse(g, job, use);
    var jobs: Id :| ValueOf(g, root, "jobs", jobs) && HasOwnEntry(g, jobs, key, job);
    OwnEntryIsSeen(g, jobs, key, job, use);
  }

  lemma SeenIsEntryUse(g: Graph, root: Id, use: Id) returns (key: string, job: Id)
    requires IsWorkflowUse(g, root, use)
    ensures EntryJob(g, root, key, job) && JobUse(g, job, use)
  {
    var jobs: Id :| ValueOf(g, root, "jobs", jobs) && JobsUse(g, jobs, use);
    key, job := SeenIsOwnEntry(g, jobs, use);
  }

  // ----- exactly when the scan sees every use, and nothing else -----

  lemma TrueUseIsSeen(g: Graph, root: Id, use: Id)
    requires MergesHideNothing(g, root) && IsTrueUse(g, root, use)
    ensures IsWorkflowUse(g, root, use)
  {
    var job: Id :| IsJob(g, root, job) && JobUse(g, job, use);
    if !MergedJob(g, root, job) {
      var key := JobIsEntry(g, root, job);
    }
    EntryUseIsSeen(g, root, use);
  }

  lemma MergedUseIsTrue(g: Graph, root: Id, job: Id, use: Id)
    requires MergedJob(g, root, job) && JobUse(g, job, use)
    ensures IsTrueUse(g, root, use)
  {
    MergedIsJob(g, root, job);
  }

  /** Every use of every job is scanned if and only if no merge into `jobs` hides one. */
  lemma ScanIsCompleteIff(g: Graph, root: Id)
    ensures (forall use: Id | IsTrueUse(g, root, use) :: IsWorkflowUse(g, root, use)) <==> MergesHideNothing(g, root)
  {
    if MergesHideNothing(g, root) {
      forall use: Id | IsTrueUse(g, root, use)
        ensures IsWorkflowUse(g, root, use)
      {
        TrueUseIsSeen(g, root, use);
      }
    }
    if forall use: Id | IsTrueUse(g, root, use) :: IsWorkflowUse(g, root, use) {
      forall job: Id, use: Id | MergedJob(g, root, job) && JobUse(g, job, use)
        ensures IsEntryUse(g, root, use)
      {
        MergedUseIsTrue(g, root, job, use);
        var key, entry := SeenIsEntryUse(g, root, use);
      }
    }
  }

  lemma SeenIsTrueUse(g: Graph, root: Id, use: Id)
    requires MergesAddNothing(g, root) && IsWorkflowUse(g, root, use)
    ensures IsTrueUse(g, root, use)
  {
    var key, job := SeenIsEntryUse(g, root, use);
    if key != "<<" {
      EntryIsJob(g, root, key, job);
    }
  }

  /** Nothing else is scanned if and only if no merge key holds a use that no job has. */
  lemma ScanIsPreciseIff(g: Graph, root: Id)
    ensures (forall use: Id | IsWorkflowUse(g, root, use) :: IsTrueUse(g, root, use)) <==> MergesAddNothing(g, root)
  {
    if MergesAddNothing(g, root) {
      forall use: Id | IsWorkflowUse(g, root, use)
        ensures IsTrueUse(g, root, use)
      {
        SeenIsTrueUse(g, root, use);
      }
    }
    if forall use: Id | IsWorkflowUse(g, root, use) :: IsTrueUse(g, root, use) {
      forall job: Id, use: Id | EntryJob(g, root, "<<", job) && JobUse(g, job, use)
        ensures IsTrueUse(g, root, use)
      {
        EntryUseIsSeen(g, root, use);
      }
    }
  }

  /** In particular without a merge key in `jobs`. */
  lemma PlainJobsAreScanned(g: Graph, root: Id)
    requires forall job: Id :: !EntryJob(g, root, "<<", job)
    ensures MergesHideNothing(g, root) && MergesAddNothing(g, root)
  {
    forall job: Id | MergedJob(g, root, job)
      ensures false
    {
      var jobs: Id :| ValueOf(g, root, "jobs", jobs) && BroughtIn(g, jobs, job);
      var v := MergeIsAnEntry(g, jobs, job);
      assert EntryJob(g, root, "<<", v);
    }
  }

  lemma MergeIsAnEntry(g: Graph, n: Id, job: Id) returns (v: Id)
    requires BroughtIn(g, n, job)
    ensures HasOwnEntry(g, n, "<<", v)
  {
    var key, path :| key != "<<" && Leads(g, n, path, key, job) && |path| > 1;
    assert Merges(g, path[0], path[1]);
    v :| HasEntry(g, path[0], "<<", v) && BringsIn(g, v, path[1]);
  }

  // ----- a workflow whose only job is merged in -----

  /** `jobs: {<<: {build: {uses: owner/action@main}}}` */
  function Merged(): Graph {
    var g := [Mapping([1, 2]), Scalar("jobs"), Mapping([3, 4]), Scalar("<<"), Mapping([5, 6]), Scalar("build"),
              Mapping([7, 8]), Scalar("uses"), Scalar("owner/action@main")];
    assert WellFormed(g);
    g
  }

  /** Looking keys up in a mapping with one entry that is no merge. */
  lemma SingleEntry(g: Graph, n: Id, k: Id, v: Id, key: string, other: string)
    requires n < |g| && k < |g| && g[n] == Mapping([k, v]) && g[k] == Scalar(key) && key != "<<"
    ensures MappingValues(g, n, other, {}) == if other == key then [v] else []
  {
    assert [k, v][2..] == [] && {} + {n} == {n};
    assert EntryValues(g, [], other, {n}) == [];
    assert EntryValues(g, [k, v], other, {n}) == if other == key then [v] else [];
  }

  lemma SingleEntryLeads(g: Graph, n: Id, k: Id, v: Id, key: string)
    requires n < |g| && k < |g| && g[n] == Mapping([k, v]) && g[k] == Scalar(key)
    ensures HasEntry(g, n, key, v) && Leads(g, n, [n], key, v)
  {
    assert EntryAt(g, [k, v], 0, key, v);
  }

  /** A `jobs` mapping with one entry, whose value, taken for a job, has neither uses nor steps. */
  lemma NothingInEntry(g: Graph, jobs: Id, k: Id, job: Id)
    requires jobs < |g| && job < |g| && g[jobs] == Mapping([k, job]) && g[job].Mapping?
    requires MappingValues(g, job, "uses", {}) == [] && MappingValues(g, job, "steps", {}) == []
    ensures UsesOfJobMapping(g, jobs) == []
  {
    assert UsesOfJob(g, job) == [];
    assert [k, job][2..] == [] && UsesOfJobEntries(g, []) == [];
  }

  /** The graph of such a document, whatever else it holds. */
  predicate IsMerged(g: Graph) {
    && |g| == 9 && g[0] == Mapping([1, 2]) && g[1] == Scalar("jobs") && g[2] == Mapping([3, 4]) && g[3] == Scalar("<<")
    && g[4] == Mapping([5, 6]) && g[5] == Scalar("build") && g[6] == Mapping([7, 8]) && g[7] == Scalar("uses")
  }

  lemma NothingIsScanned(g: Graph)
    requires IsMerged(g)
    ensures WorkflowUses(g, 0) == []
  {
    SingleEntry(g, 0, 1, 2, "jobs", "jobs");
    SingleEntry(g, 4, 5, 6, "build", "uses");
    SingleEntry(g, 4, 5, 6, "build", "steps");
    NothingInEntry(g, 2, 3, 4);
    assert [2][1..] == [] && UsesOfJobs(g, []) == [];
    assert UsesOfJobs(g, [2]) == [];
  }

  lemma BuildIsMergedIn(g: Graph)
    requires IsMerged(g)
    ensures MergedJob(g, 0, 6) && JobUse(g, 6, 8)
  {
    SingleEntryLeads(g, 0, 1, 2, "jobs");
    SingleEntryLeads(g, 2, 3, 4, "<<");
    SingleEntryLeads(g, 4, 5, 6, "build");
    SingleEntryLeads(g, 6, 7, 8, "uses");
    assert BringsIn(g, 4, 4) && Merges(g, 2, 4);
    assert [2, 4][1..] == [4] && IsChain(g, [2, 4]);
    assert Leads(g, 2, [2, 4], "build", 6);
    assert BroughtIn(g, 2, 6) by {
      assert "build" != "<<" && |[2, 4]| > 1;
    }
    assert ValueOf(g, 0, "jobs", 2) && ValueOf(g, 6, "uses", 8);
  }

  /** Nothing of it is scanned, although its job has a use, which is not pinned. */
  lemma MergedJobIsMissed()
    ensures IsMerged(Merged()) && Merged()[8] == Scalar("owner/action@main")
    ensures WorkflowUses(Merged(), 0) == [] && IsTrueUse(Merged(), 0, 8) && !ValidTarget("owner/action@main")
    ensures !MergesHideNothing(Merged(), 0)
  {
    var g := Merged();
    NothingIsScanned(g);
    BuildIsMergedIn(g);
    MergedUseIsTrue(g, 0, 6, 8);
    WorkflowUsesIff(g, 0, 8);
    ScanIsCompleteIff(g, 0);
    NotPinned();
  }

  lemma NotPinned()
    ensures !ValidTarget("owner/action@main")
  {
    var target := "owner/action@main";
    assert |target| == 17 && target[0] == 'o';
  }
}

/**
  The workflow pin checker: every `uses` in the workflows, and in the local actions they reach, must be
  local, pinned to a full commit, or a container pinned by digest.
 */
module WorkflowPins {
  import opened YamlNodes

  // ----- one reference -----

  predicate IsHex(s: string) {
    forall i | 0 <= i < |s| :: '0' <= s[i] <= '9' || 'a' <= s[i] <= 'f'
  }

  /** The last '@', or -1. */
  function LastAt(s: string): (k: int)
    ensures -1 <= k < |s| && (k >= 0 ==> s[k] == '@') && forall i | k < i < |s| :: s[i] != '@'
  {
    if s == "" then -1
    else if s[|s| - 1] == '@' then |s| - 1
    else LastAt(s[..|s| - 1])
  }

  const LocalPrefix := "./"
  const DockerPrefix := "docker://"
  const DigestMark := "@sha256:"

  predicate EndsInDigest(s: string) {
    |s| >= 72 && s[|s| - 72..|s| - 64] == DigestMark && IsHex(s[|s| - 64..])
  }

  predicate ValidTarget(target: string) {
    if LocalPrefix <= target then true
    else if DockerPrefix <= target then EndsInDigest(target)
    else
      var separator := LastAt(target);
      separator > 0 && |target| - (separator + 1) == 40 && IsHex(target[separator + 1..])
  }

  ghost predicate FullCommit(target: string) {
    exists action, sha :: action != "" && |sha| == 40 && IsHex(sha) && target == action + "@" + sha
  }

  ghost predicate PinnedImage(target: string) {
    DockerPrefix <= target &&
    exists image, digest :: |digest| == 64 && IsHex(digest) && target == image + DigestMark + digest
  }

  /** A reference is accepted exactly when it is local, a digest-pinned container or a full commit. */
  lemma ValidTargetIff(target: string)
    ensures ValidTarget(target) <==>
            || LocalPrefix <= target
            || PinnedImage(target)
            || (!(DockerPrefix <= target) && FullCommit(target))
  {
    DigestIff(target);
    CommitIff(target);
  }

  lemma DigestIff(target: string)
    ensures EndsInDigest(target) <==>
            exists image, digest :: |digest| == 64 && IsHex(digest) && target == image + DigestMark + digest
  {
    if EndsInDigest(target) {
      var n := |target|;
      assert target == target[..n - 72] + DigestMark + target[n - 64..];
    }
    if image, digest :| |digest| == 64 && IsHex(digest) && target == image + DigestMark + digest {
      assert target[|target| - 64..] == digest;
      assert target[|target| - 72..|target| - 64] == DigestMark;
    }
  }

  lemma CommitIff(target: string)
    ensures FullCommit(target) <==>
            LastAt(target) > 0 && |target| - (LastAt(target) + 1) == 40 && IsHex(target[LastAt(target) + 1..])
  {
    CommitAt(target, LastAt(target));
  }

  lemma CommitAt(target: string, k: int)
    requires -1 <= k < |target| && (k >= 0 ==> target[k] == '@') && forall i | k < i < |target| :: target[i] != '@'
    ensures FullCommit(target) <==> k > 0 && |target| - (k + 1) == 40 && IsHex(target[k + 1..])
  {
    if k > 0 && |target| - (k + 1) == 40 && IsHex(target[k + 1..]) {
      assert target == target[..k] + "@" + target[k + 1..];
    }
    if action, sha :| action != "" && |sha| == 40 && IsHex(sha) && target == action + "@" + sha {
      assert target[|action|] == '@' && target[|action| + 1..] == sha;
      assert forall i | |action| < i < |target| :: target[i] == sha[i - |action| - 1];
      assert k == |action|;
    }
  }

  // ----- the uses of a document -----

  /** The uses of the given nodes, one after another. */
  function UsesOfSteps(g: Graph, steps: seq<Id>): (uses: seq<Id>)
    requires In(g, steps)
    ensures In(g, uses)
  {
    if steps == [] then []
    else MappingValues(g, Resolve(g, steps[0]), "uses", {}) + UsesOfSteps(g, steps[1..])
  }

  function UsesOfList(g: Graph, list: Id): (uses: seq<Id>)
    requires list < |g|
    ensures In(g, uses)
  {
    var resolved := Resolve(g, list);
    if g[resolved].Sequence? then UsesOfSteps(g, g[resolved].content) else []
  }

  function UsesOfStepLists(g: Graph, lists: seq<Id>): (uses: seq<Id>)
    requires In(g, lists)
    ensures In(g, uses)
  {
    if lists == [] then [] else UsesOfList(g, lists[0]) + UsesOfStepLists(g, lists[1..])
  }

  function UsesOfJob(g: Graph, job: Id): (uses: seq<Id>)
    requires job < |g|
    ensures In(g, uses)
  {
    MappingValues(g, job, "uses", {}) + UsesOfStepLists(g, MappingValues(g, job, "steps", {}))
  }

  /** The values of a jobs mapping, taken entry by entry: jobs brought in by a merge are not among them. */
  function UsesOfJobEntries(g: Graph, content: seq<Id>): (uses: seq<Id>)
    requires In(g, content)
    ensures In(g, uses)
  {
    if |content| < 2 then []
    else UsesOfJob(g, Resolve(g, content[1])) + UsesOfJobEntries(g, content[2..])
  }

  function UsesOfJobMapping(g: Graph, jobs: Id): (uses: seq<Id>)
    requires jobs < |g|
    ensures In(g, uses)
  {
    var resolved := Resolve(g, jobs);
    if g[resolved].Mapping? then UsesOfJobEntries(g, g[resolved].content) else []
  }

  function UsesOfJobs(g: Graph, lists: seq<Id>): (uses: seq<Id>)
    requires In(g, lists)
    ensures In(g, uses)
  {
    if lists == [] then [] else UsesOfJobMapping(g, lists[0]) + UsesOfJobs(g, lists[1..])
  }

  function WorkflowUses(g: Graph, root: Id): (uses: seq<Id>)
    requires root < |g|
    ensures In(g, uses)
  {
    UsesOfJobs(g, MappingValues(g, Resolve(g, root), "jobs", {}))
  }

  function UsesOfRuns(g: Graph, runs: seq<Id>): (uses: seq<Id>)
    requires In(g, runs)
    ensures In(g, uses)
  {
    if runs == [] then []
    else UsesOfStepLists(g, MappingValues(g, Resolve(g, runs[0]), "steps", {})) + UsesOfRuns(g, runs[1..])
  }

  function ManifestUses(g: Graph, root: Id): (uses: seq<Id>)
    requires root < |g|
    ensures In(g, uses)
  {
    UsesOfRuns(g, MappingValues(g, Resolve(g, root), "runs", {}))
  }

  // ----- what the uses of a document are -----

  /** The node is a `uses` of one of the steps. */
  ghost predicate StepUse(g: Graph, steps: seq<Id>, use: Id) {
    exists step: Id :: step in steps && step < |g| && ValueOf(g, step, "uses", use)
  }

  /** The node is a `uses` of a step in one of the lists. */
  ghost predicate ListUse(g: Graph, lists: seq<Id>, use: Id) {
    exists list: Id :: list in lists && IsListUse(g, list, use)
  }

  ghost predicate IsListUse(g: Graph, list: Id, use: Id) {
    list < |g| && g[Resolve(g, list)].Sequence? && StepUse(g, g[Resolve(g, list)].content, use)
  }

  ghost predicate StepsUse(g: Graph, holder: Id, use: Id) {
    exists list: Id :: ValueOf(g, holder, "steps", list) && IsListUse(g, list, use)
  }

  ghost predicate JobUse(g: Graph, job: Id, use: Id) {
    ValueOf(g, job, "uses", use) || StepsUse(g, job, use)
  }

  /** Some entry of the mapping, whatever its key, has a value with the property. */
  ghost predicate SomeEntry(content: seq<Id>, p: Id -> bool)
    decreases |content|
  {
    |content| >= 2 && (p(content[1]) || SomeEntry(content[2..], p))
  }

  /** Some entry of the mapping, whatever its key, holds a job with the given use. */
  ghost predicate EntryUse(g: Graph, content: seq<Id>, use: Id) {
    SomeEntry(content, (job: Id) => JobUse(g, job, use))
  }

  ghost predicate JobsUse(g: Graph, jobs: Id, use: Id) {
    jobs < |g| && g[Resolve(g, jobs)].Mapping? && EntryUse(g, g[Resolve(g, jobs)].content, use)
  }

  ghost predicate IsWorkflowUse(g: Graph, root: Id, use: Id) {
    exists jobs: Id :: ValueOf(g, root, "jobs", jobs) && JobsUse(g, jobs, use)
  }

  ghost predicate IsManifestUse(g: Graph, root: Id, use: Id) {
    exists runs: Id :: ValueOf(g, root, "runs", runs) && StepsUse(g, runs, use)
  }

  lemma ResolvedLookup(g: Graph, n: Id, key: string, v: Id)
    requires n < |g|
    ensures v in MappingValues(g, Resolve(g, n), key, {}) <==> ValueOf(g, n, key, v)
    ensures v in MappingValues(g, n, key, {}) <==> ValueOf(g, n, key, v)
  {
    MappingValuesIff(g, n, key, v);
    assert Resolve(g, Resolve(g, n)) == Resolve(g, n);
    assert MappingValues(g, Resolve(g, n), key, {}) == MappingValues(g, n, key, {});
  }

  lemma {:induction false} StepsIff(g: Graph, steps: seq<Id>, use: Id)
    requires In(g, steps)
    ensures use in UsesOfSteps(g, steps) <==> StepUse(g, steps, use)
    decreases |steps|
  {
    if steps != [] {
      StepsIff(g, steps[1..], use);
      ResolvedLookup(g, steps[0], "uses", use);
      assert forall step :: step in steps <==> step == steps[0] || step in steps[1..];
    }
  }

  lemma ListIff(g: Graph, list: Id, use: Id)
    requires list < |g|
    ensures use in UsesOfList(g, list) <==> IsListUse(g, list, use)
  {
    if g[Resolve(g, list)].Sequence? {
      StepsIff(g, g[Resolve(g, list)].content, use);
    }
  }

  lemma ListUseCons(g: Graph, lists: seq<Id>, use: Id)
    requires lists != []
    ensures ListUse(g, lists, use) <==> IsListUse(g, lists[0], use) || ListUse(g, lists[1..], use)
  {
    assert forall x :: x in lists <==> x == lists[0] || x in lists[1..];
  }

  lemma {:induction false} ListsIff(g: Graph, lists: seq<Id>, use: Id)
    requires In(g, lists)
    ensures use in UsesOfStepLists(g, lists) <==> ListUse(g, lists, use)
    decreases |lists|
  {
    if lists != [] {
      ListsIff(g, lists[1..], use);
      ListIff(g, lists[0], use);
      ListUseCons(g, lists, use);
    }
  }

  lemma HolderIff(g: Graph, holder: Id, use: Id)
    requires holder < |g|
    ensures use in UsesOfStepLists(g, MappingValues(g, Resolve(g, holder), "steps", {})) <==> StepsUse(g, holder, use)
    ensures use in UsesOfStepLists(g, MappingValues(g, holder, "steps", {})) <==> StepsUse(g, holder, use)
  {
    ListsIff(g, MappingValues(g, Resolve(g, holder), "steps", {}), use);
    ListsIff(g, MappingValues(g, holder, "steps", {}), use);
    forall list: Id
      ensures list in MappingValues(g, Resolve(g, holder), "steps", {}) <==> ValueOf(g, holder, "steps", list)
      ensures list in MappingValues(g, holder, "steps", {}) <==> ValueOf(g, holder, "steps", list)
    {
      ResolvedLookup(g, holder, "steps", list);
    }
  }

  lemma JobIff(g: Graph, job: Id, use: Id)
    requires job < |g|
    ensures use in UsesOfJob(g, Resolve(g, job)) <==> JobUse(g, job, use)
  {
    assert Resolve(g, Resolve(g, job)) == Resolve(g, job);
    ResolvedLookup(g, job, "uses", use);
    HolderIff(g, job, use);
  }

  lemma {:induction false} EntriesIff(g: Graph, content: seq<Id>, use: Id)
    requires In(g, content)
    ensures use in UsesOfJobEntries(g, content) <==> EntryUse(g, content, use)
    decreases |content|
  {
    if |content| >= 2 {
      JobIff(g, content[1], use);
      EntriesIff(g, content[2..], use);
    }
  }

  lemma JobMappingIff(g: Graph, jobs: Id, use: Id)
    requires jobs < |g|
    ensures use in UsesOfJobMapping(g, jobs) <==> JobsUse(g, jobs, use)
  {
    if g[Resolve(g, jobs)].Mapping? {
      EntriesIff(g, g[Resolve(g, jobs)].content, use);
    }
  }

  lemma {:induction false} JobsIff(g: Graph, lists: seq<Id>, use: Id)
    requires In(g, lists)
    ensures use in UsesOfJobs(g, lists) <==> exists jobs: Id :: jobs in lists && JobsUse(g, jobs, use)
    decreases |lists|
  {
    if lists != [] {
      JobsIff(g, lists[1..], use);
      JobMappingIff(g, lists[0], use);
      assert forall x :: x in lists <==> x == lists[0] || x in lists[1..];
    }
  }

  /** The nodes checked in a workflow are exactly its uses: of its jobs, and of their steps. */
  lemma WorkflowUsesIff(g: Graph, root: Id, use: Id)
    requires root < |g|
    ensures use in WorkflowUses(g, root) <==> IsWorkflowUse(g, root, use)
  {
    JobsIff(g, MappingValues(g, Resolve(g, root), "jobs", {}), use);
    forall jobs: Id
      ensures jobs in MappingValues(g, Resolve(g, root), "jobs", {}) <==> ValueOf(g, root, "jobs", jobs)
    {
      ResolvedLookup(g, root, "jobs", jobs);
    }
  }

  lemma {:induction false} RunsIff(g: Graph, runs: seq<Id>, use: Id)
    requires In(g, runs)
    ensures use in UsesOfRuns(g, runs) <==> exists run: Id :: run in runs && run < |g| && StepsUse(g, run, use)
    decreases |runs|
  {
    if runs != [] {
      RunsIff(g, runs[1..], use);
      HolderIff(g, runs[0], use);
      assert forall x :: x in runs <==> x == runs[0] || x in runs[1..];
    }
  }

  /** The nodes checked in an action manifest are exactly the uses of its steps. */
  lemma ManifestUsesIff(g: Graph, root: Id, use: Id)
    requires root < |g|
    ensures use in ManifestUses(g, root) <==> IsManifestUse(g, root, use)
  {
    var runs := MappingValues(g, Resolve(g, root), "runs", {});
    RunsIff(g, runs, use);
    forall run: Id
      ensures run in runs <==> ValueOf(g, root, "runs", run)
    {
      ResolvedLookup(g, root, "runs", run);
    }
  }
}

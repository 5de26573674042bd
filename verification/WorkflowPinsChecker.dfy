/** The checker as it runs: shared marks, loops, findings collected as it goes. */
module WorkflowPinsChecker {
  import opened Common
  import opened YamlNodes
  import opened WorkflowPins
  import opened WorkflowPinsSearch
  import opened WorkflowPinsTheorem
  import opened WorkflowPinsExact
  import Pins = WorkflowPins

  lemma Append<T>(a: seq<T>, b: seq<T>, c: seq<T>)
    ensures a + (b + c) == a + b + c
  {
  }

  /** The merge traversal marks the mappings on its path and unmarks them when it leaves. */
  class Lookup {
    const graph: Graph
    var marked: set<Id>

    constructor (graph: Graph)
      ensures this.graph == graph && marked == {}
    {
      this.graph, marked := graph, {};
    }

    method Values(n: Id, key: string) returns (values: seq<Id>)
      requires n < |graph|
      modifies this
      ensures values == MappingValues(graph, n, key, old(marked)) && marked == old(marked)
      decreases |All(graph) - marked|, 2, 0
    {
      var m := Resolve(graph, n);
      if !graph[m].Mapping? || m in marked {
        return [];
      }
      ghost var before := marked;
      VisitMore(graph, marked, m);
      marked := marked + {m};
      values := Entries(graph[m].content, key);
      marked := marked - {m};
      assert marked == before;
    }

    method Entries(content: seq<Id>, key: string) returns (values: seq<Id>)
      requires In(graph, content)
      modifies this
      ensures values == EntryValues(graph, content, key, old(marked)) && marked == old(marked)
      decreases |All(graph) - marked|, 4, 0
    {
      values := [];
      var todo := content;
      while |todo| >= 2
        invariant In(graph, todo) && marked == old(marked)
        invariant EntryValues(graph, content, key, marked) == values + EntryValues(graph, todo, key, marked)
        decreases |todo|
      {
        var found := [];
        var entry := ScalarValue(graph, todo[0]);
        if entry == key {
          found := [todo[1]];
        }
        if entry == "<<" {
          var merged := Merged(todo[1], key);
          found := found + merged;
        }
        NextEntry(todo, key, marked, values, found);
        values, todo := values + found, todo[2..];
      }
    }

    lemma NextEntry(content: seq<Id>, key: string, visited: set<Id>, values: seq<Id>, found: seq<Id>)
      requires In(graph, content) && |content| >= 2
      requires found == (if ScalarValue(graph, content[0]) == key then [content[1]] else []) +
                        (if ScalarValue(graph, content[0]) == "<<"
                         then MergedValues(graph, content[1], key, visited) else [])
      ensures values + EntryValues(graph, content, key, visited) ==
              values + found + EntryValues(graph, content[2..], key, visited)
    {
      Append(values, found, EntryValues(graph, content[2..], key, visited));
    }

    method Merged(n: Id, key: string) returns (values: seq<Id>)
      requires n < |graph|
      modifies this
      ensures values == MergedValues(graph, n, key, old(marked)) && marked == old(marked)
      decreases |All(graph) - marked|, 3, 0
    {
      var m := Resolve(graph, n);
      if !graph[m].Sequence? {
        values := Values(m, key);
        return;
      }
      values := [];
      var todo := graph[m].content;
      while todo != []
        invariant In(graph, todo) && marked == old(marked)
        invariant ItemValues(graph, graph[m].content, key, marked) == values + ItemValues(graph, todo, key, marked)
        decreases |todo|
      {
        var more := Values(todo[0], key);
        Append(values, more, ItemValues(graph, todo[1..], key, marked));
        values, todo := values + more, todo[1..];
      }
    }

    // ----- the uses of a document -----

    method UsesOfSteps(steps: seq<Id>) returns (uses: seq<Id>)
      requires In(graph, steps) && marked == {}
      modifies this
      ensures uses == Pins.UsesOfSteps(graph, steps) && marked == {}
    {
      uses := [];
      var todo := steps;
      while todo != []
        invariant In(graph, todo) && marked == {}
        invariant Pins.UsesOfSteps(graph, steps) == uses + Pins.UsesOfSteps(graph, todo)
        decreases |todo|
      {
        var more := Values(Resolve(graph, todo[0]), "uses");
        Append(uses, more, Pins.UsesOfSteps(graph, todo[1..]));
        uses, todo := uses + more, todo[1..];
      }
    }

    method UsesOfList(list: Id) returns (uses: seq<Id>)
      requires list < |graph| && marked == {}
      modifies this
      ensures uses == Pins.UsesOfList(graph, list) && marked == {}
    {
      var steps := Resolve(graph, list);
      if !graph[steps].Sequence? {
        return [];
      }
      uses := UsesOfSteps(graph[steps].content);
    }

    method UsesOfStepLists(lists: seq<Id>) returns (uses: seq<Id>)
      requires In(graph, lists) && marked == {}
      modifies this
      ensures uses == Pins.UsesOfStepLists(graph, lists) && marked == {}
    {
      uses := [];
      var todo := lists;
      while todo != []
        invariant In(graph, todo) && marked == {}
        invariant Pins.UsesOfStepLists(graph, lists) == uses + Pins.UsesOfStepLists(graph, todo)
        decreases |todo|
      {
        var more := UsesOfList(todo[0]);
        Append(uses, more, Pins.UsesOfStepLists(graph, todo[1..]));
        uses, todo := uses + more, todo[1..];
      }
    }

    method UsesOfJob(job: Id) returns (uses: seq<Id>)
      requires job < |graph| && marked == {}
      modifies this
      ensures uses == Pins.UsesOfJob(graph, job) && marked == {}
    {
      uses := Values(job, "uses");
      var lists := Values(job, "steps");
      var more := UsesOfStepLists(lists);
      uses := uses + more;
    }

    method UsesOfJobEntries(content: seq<Id>) returns (uses: seq<Id>)
      requires In(graph, content) && marked == {}
      modifies this
      ensures uses == Pins.UsesOfJobEntries(graph, content) && marked == {}
    {
      uses := [];
      var todo := content;
      while |todo| >= 2
        invariant In(graph, todo) && marked == {}
        invariant Pins.UsesOfJobEntries(graph, content) == uses + Pins.UsesOfJobEntries(graph, todo)
        decreases |todo|
      {
        var more := UsesOfJob(Resolve(graph, todo[1]));
        Append(uses, more, Pins.UsesOfJobEntries(graph, todo[2..]));
        uses, todo := uses + more, todo[2..];
      }
    }

    method UsesOfJobMapping(list: Id) returns (uses: seq<Id>)
      requires list < |graph| && marked == {}
      modifies this
      ensures uses == Pins.UsesOfJobMapping(graph, list) && marked == {}
    {
      var jobs := Resolve(graph, list);
      if !graph[jobs].Mapping? {
        return [];
      }
      uses := UsesOfJobEntries(graph[jobs].content);
    }

    method UsesOfJobs(lists: seq<Id>) returns (uses: seq<Id>)
      requires In(graph, lists) && marked == {}
      modifies this
      ensures uses == Pins.UsesOfJobs(graph, lists) && marked == {}
    {
      uses := [];
      var todo := lists;
      while todo != []
        invariant In(graph, todo) && marked == {}
        invariant Pins.UsesOfJobs(graph, lists) == uses + Pins.UsesOfJobs(graph, todo)
        decreases |todo|
      {
        var more := UsesOfJobMapping(todo[0]);
        Append(uses, more, Pins.UsesOfJobs(graph, todo[1..]));
        uses, todo := uses + more, todo[1..];
      }
    }

    method WorkflowUses(root: Id) returns (uses: seq<Id>)
      requires root < |graph| && marked == {}
      modifies this
      ensures uses == Pins.WorkflowUses(graph, root) && marked == {}
    {
      var jobs := Values(Resolve(graph, root), "jobs");
      uses := UsesOfJobs(jobs);
    }

    method UsesOfRun(run: Id) returns (uses: seq<Id>)
      requires run < |graph| && marked == {}
      modifies this
      ensures uses == Pins.UsesOfStepLists(graph, MappingValues(graph, Resolve(graph, run), "steps", {})) &&
              marked == {}
    {
      var lists := Values(Resolve(graph, run), "steps");
      uses := UsesOfStepLists(lists);
    }

    method UsesOfRuns(runs: seq<Id>) returns (uses: seq<Id>)
      requires In(graph, runs) && marked == {}
      modifies this
      ensures uses == Pins.UsesOfRuns(graph, runs) && marked == {}
    {
      uses := [];
      var todo := runs;
      while todo != []
        invariant In(graph, todo) && marked == {}
        invariant Pins.UsesOfRuns(graph, runs) == uses + Pins.UsesOfRuns(graph, todo)
        decreases |todo|
      {
        var more := UsesOfRun(todo[0]);
        Append(uses, more, Pins.UsesOfRuns(graph, todo[1..]));
        uses, todo := uses + more, todo[1..];
      }
    }

    method ManifestUses(root: Id) returns (uses: seq<Id>)
      requires root < |graph| && marked == {}
      modifies this
      ensures uses == Pins.ManifestUses(graph, root) && marked == {}
    {
      var runs := Values(Resolve(graph, root), "runs");
      uses := UsesOfRuns(runs);
    }
  }

  class Checker {
    const repo: Repo
    var localActions: set<string>
    var findings: seq<Finding>

    constructor (repo: Repo)
      ensures this.repo == repo && State() == Search({}, [])
    {
      this.repo, localActions, findings := repo, {}, [];
    }

    function State(): Search
      reads this
    {
      Search(localActions, findings)
    }

    method Note(source: string, problem: Problem)
      modifies this
      ensures State() == Report(old(State()), source, problem)
    {
      findings := findings + [Finding(source, problem)];
    }

    method CheckLocal(source: string, target: string)
      modifies this
      ensures State() == CheckLocalAction(repo, old(State()), source, target)
      decreases |Left(repo, State())|, 2, 0
    {
      if IsReusable(target) {
        return;
      }
      var manifests := Manifests(repo, target);
      if manifests.Failed? {
        Note(source, manifests.error);
        return;
      }
      ghost var before := State();
      var todo := manifests.value;
      while todo != []
        invariant Extends(before, State()) && forall m | m in todo :: m in repo.files
        invariant CheckManifests(repo, before, manifests.value) == CheckManifests(repo, State(), todo)
        decreases |todo|
      {
        if todo[0] !in localActions {
          VisitShrinks(repo, State(), todo[0]);
          LeftShrinks(repo, before, State());
          localActions := localActions + {todo[0]};
          CheckLocalManifest(todo[0]);
        }
        todo := todo[1..];
      }
    }

    method CheckLocalManifest(path: string)
      requires path in repo.files
      modifies this
      ensures State() == CheckManifest(repo, old(State()), path)
      decreases |Left(repo, State())|, 4, 0
    {
      if repo.files[path].None? {
        Note(path, Unparsed);
        return;
      }
      var doc := repo.files[path].value;
      var g := doc.graph;
      var lookup := new Lookup(g);
      var uses := lookup.ManifestUses(doc.root);
      ghost var before := State();
      var todo := uses;
      while todo != []
        invariant In(g, todo) && Extends(before, State())
        invariant CheckUses(repo, before, path, g, uses) == CheckUses(repo, State(), path, g, todo)
        decreases |todo|
      {
        LeftShrinks(repo, before, State());
        CheckOne(path, g[Resolve(g, todo[0])]);
        todo := todo[1..];
      }
    }

    method CheckOne(path: string, node: Node)
      modifies this
      ensures State() == CheckUse(repo, old(State()), path, node)
      decreases |Left(repo, State())|, 2, 1
    {
      if !node.Scalar? {
        Note(path, NotScalar);
      } else if !ValidTarget(node.value) {
        Note(path, NotPinned);
      } else if LocalPrefix <= node.value {
        CheckLocal(path, node.value);
      }
    }

    method NodeProblems(path: string, g: Graph, uses: seq<Id>) returns (found: seq<Finding>)
      requires In(g, uses)
      ensures found == NodeFindings(path, g, uses)
    {
      found := [];
      var todo := uses;
      while todo != []
        invariant In(g, todo)
        invariant NodeFindings(path, g, uses) == found + NodeFindings(path, g, todo)
        decreases |todo|
      {
        var node := g[Resolve(g, todo[0])];
        var next := NodeFinding(path, node);
        Append(found, next, NodeFindings(path, g, todo[1..]));
        found, todo := found + next, todo[1..];
      }
    }

    method FollowLocals(path: string, g: Graph, uses: seq<Id>)
      requires In(g, uses)
      modifies this
      ensures State() == CheckLocals(repo, old(State()), path, g, uses)
    {
      ghost var before := State();
      var todo := uses;
      while todo != []
        invariant In(g, todo)
        invariant CheckLocals(repo, before, path, g, uses) == CheckLocals(repo, State(), path, g, todo)
        decreases |todo|
      {
        var node := g[Resolve(g, todo[0])];
        if node.Scalar? && LocalPrefix <= node.value {
          CheckLocal(path, node.value);
        }
        todo := todo[1..];
      }
    }

    method CheckDoc(path: string, doc: Doc)
      modifies this
      ensures State() == CheckDocument(repo, old(State()), path, doc)
    {
      var lookup := new Lookup(doc.graph);
      var uses := lookup.WorkflowUses(doc.root);
      var found := NodeProblems(path, doc.graph, uses);
      findings := findings + found;
      FollowLocals(path, doc.graph, uses);
    }

    method CheckFile(e: Entry)
      modifies this
      ensures State() == CheckWorkflowFile(repo, old(State()), e)
    {
      ghost var before := State();
      var kept, todo := findings, e.docs;
      while todo != []
        invariant CheckDocuments(repo, before, e.path, e.docs) == CheckDocuments(repo, State(), e.path, todo)
        decreases |todo|
      {
        CheckDoc(e.path, todo[0]);
        todo := todo[1..];
      }
      if !e.complete {
        findings := kept + [Finding(e.path, Unparsed)];
      }
    }

    /** The whole check: nothing is reported exactly when everything scanned or followed is pinned, which is
        everything there is unless a merge into `jobs` hides or adds a use or a local action is named by references
        alone that are not followed. */
    method CheckDir(entries: seq<Entry>)
      requires State() == Search({}, [])
      modifies this
      ensures State() == CheckEntries(repo, Search({}, []), entries)
      ensures findings == [] <==> AllScannedPinned(repo, entries)
      ensures NothingHidden(entries) && NothingUnfollowed(repo, entries) && findings == [] ==> AllPinned(repo, entries)
      ensures NothingAdded(entries) && AllPinned(repo, entries) ==> findings == []
    {
      ScanIsExact(repo, entries);
      if NothingHidden(entries) && NothingUnfollowed(repo, entries) && AllScannedPinned(repo, entries) {
        ScannedIsAll(repo, entries);
      }
      if NothingAdded(entries) && AllPinned(repo, entries) {
        AllIsScanned(repo, entries);
      }
      var todo := entries;
      while todo != []
        invariant CheckEntries(repo, Search({}, []), entries) == CheckEntries(repo, State(), todo)
        decreases |todo|
      {
        if IsWorkflow(todo[0]) {
          CheckFile(todo[0]);
        }
        todo := todo[1..];
      }
    }
  }
}

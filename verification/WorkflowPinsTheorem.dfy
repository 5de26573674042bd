/** The whole check: it reports nothing exactly when everything that the references it follows reach is pinned. */
module WorkflowPinsTheorem {
  import opened Common
  import opened YamlNodes
  import opened WorkflowPins
  import opened WorkflowPinsSearch

  /** One directory entry; `complete` says that the file opened and all its documents parsed. */
  datatype Entry = Entry(path: string, isDir: bool, docs: seq<Doc>, complete: bool)

  predicate IsWorkflow(e: Entry) {
    !e.isDir && IsYaml(e.path)
  }

  // ----- the check -----

  function NodeFinding(path: string, node: Node): seq<Finding> {
    if !node.Scalar? then [Finding(path, NotScalar)]
    else if !ValidTarget(node.value) then [Finding(path, NotPinned)]
    else []
  }

  function NodeFindings(path: string, g: Graph, uses: seq<Id>): seq<Finding>
    requires In(g, uses)
  {
    if uses == [] then []
    else NodeFinding(path, g[Resolve(g, uses[0])]) + NodeFindings(path, g, uses[1..])
  }

  function CheckLocals(repo: Repo, s: Search, path: string, g: Graph, uses: seq<Id>): (r: Search)
    requires In(g, uses)
    ensures Extends(s, r)
    decreases |uses|
  {
    if uses == [] then s
    else
      var node := g[Resolve(g, uses[0])];
      CheckLocals(repo, if node.Scalar? &&
      LocalPrefix <= node.value then CheckLocalAction(repo, s, path, node.value) else s,
                  path, g, uses[1..])
  }

  function CheckDocument(repo: Repo, s: Search, path: string, doc: Doc): (r: Search)
    ensures Extends(s, r)
  {
    var uses := WorkflowUses(doc.graph, doc.root);
    CheckLocals(repo, s.(findings := s.findings + NodeFindings(path, doc.graph, uses)), path, doc.graph, uses)
  }

  function CheckDocuments(repo: Repo, s: Search, path: string, docs: seq<Doc>): (r: Search)
    ensures Extends(s, r)
    decreases |docs|
  {
    if docs == [] then s else CheckDocuments(repo, CheckDocument(repo, s, path, docs[0]), path, docs[1..])
  }

  /** A file that does not parse to its end reports that alone. */
  function CheckWorkflowFile(repo: Repo, s: Search, e: Entry): (r: Search)
    ensures Extends(s, r)
  {
    var r := CheckDocuments(repo, s, e.path, e.docs);
    if e.complete then r else Search(r.visited, s.findings + [Finding(e.path, Unparsed)])
  }

  function CheckEntries(repo: Repo, s: Search, entries: seq<Entry>): (r: Search)
    ensures Extends(s, r)
    decreases |entries|
  {
    if entries == [] then s
    else CheckEntries(repo, if IsWorkflow(entries[0]) then CheckWorkflowFile(repo, s, entries[0]) else s, entries[1..])
  }

  // ----- what is reachable -----

  ghost predicate DocUse(doc: Doc, node: Node) {
    exists use: Id :: use < |doc.graph| && IsWorkflowUse(doc.graph, doc.root, use) &&
                      node == doc.graph[Resolve(doc.graph, use)]
  }

  /** A reference in a scanned workflow. */
  ghost predicate WorkflowUse(entries: seq<Entry>, node: Node) {
    exists e, doc :: e in entries && IsWorkflow(e) && doc in e.docs && DocUse(doc, node)
  }

  /** A reference of a scanned workflow is followed to the manifest. */
  ghost predicate IsRoot(repo: Repo, entries: seq<Entry>, m: string) {
    exists node :: WorkflowUse(entries, node) && UseLeads(repo, node, m)
  }

  /** Where chains of references start, and how they go on. */
  datatype Links = Links(root: string -> bool, next: (string, string) -> bool)

  ghost function LinksOf(repo: Repo, entries: seq<Entry>): Links {
    Links(m => IsRoot(repo, entries, m), (m, next) => IsNext(repo, m, next))
  }

  /** A chain of that many references between local actions leads from a workflow to the manifest. */
  ghost predicate ReachedIn(links: Links, m: string, steps: nat)
    decreases steps
  {
    if steps == 0 then links.root(m)
    else exists previous :: ReachedIn(links, previous, steps - 1) && links.next(previous, m)
  }

  ghost predicate Reached(links: Links, m: string) {
    exists steps: nat :: ReachedIn(links, m, steps)
  }

  ghost predicate Reachable(repo: Repo, entries: seq<Entry>, m: string) {
    Reached(LinksOf(repo, entries), m)
  }

  /** Everything scanned parsed, and every reference in it, or in an action that followed references reach, is good. */
  ghost predicate AllScannedPinned(repo: Repo, entries: seq<Entry>) {
    && (forall e | e in entries && IsWorkflow(e) :: e.complete)
    && (forall node | WorkflowUse(entries, node) :: UseGood(repo, node))
    && (forall m | Reachable(repo, entries, m) :: FileGood(repo, m))
  }

  // ----- no findings, everything settled -----

  predicate IsPinned(node: Node) {
    node.Scalar? && ValidTarget(node.value)
  }

  ghost predicate PinnedUses(g: Graph, uses: seq<Id>) {
    forall i | 0 <= i < |uses| :: uses[i] < |g| && IsPinned(g[Resolve(g, uses[i])])
  }

  lemma {:induction false} NoNodeFindings(path: string, g: Graph, uses: seq<Id>)
    requires In(g, uses)
    ensures NodeFindings(path, g, uses) == [] <==> PinnedUses(g, uses)
    decreases |uses|
  {
    if uses != [] {
      NoNodeFindings(path, g, uses[1..]);
      PinnedUsesCons(g, uses);
    }
  }

  lemma PinnedUsesCons(g: Graph, uses: seq<Id>)
    requires In(g, uses) && uses != []
    ensures PinnedUses(g, uses) <==> IsPinned(g[Resolve(g, uses[0])]) && PinnedUses(g, uses[1..])
  {
    assert forall i | 0 <= i < |uses| - 1 :: uses[1..][i] == uses[i + 1];
    if IsPinned(g[Resolve(g, uses[0])]) && PinnedUses(g, uses[1..]) {
      forall i | 0 <= i < |uses|
        ensures uses[i] < |g| && IsPinned(g[Resolve(g, uses[i])])
      {
        assert i > 0 ==> uses[i] == uses[1..][i - 1];
      }
    }
  }

  /** Where the reference leads, if it names a local action, has been visited. */
  ghost predicate LocalDone(repo: Repo, node: Node, visited: set<string>) {
    node.Scalar? && IsAction(node.value) ==>
      Manifests(repo, node.value).Ok? && forall m | m in Manifests(repo, node.value).value :: m in visited
  }

  ghost predicate UsesDone(repo: Repo, g: Graph, uses: seq<Id>, visited: set<string>) {
    forall i | 0 <= i < |uses| && uses[i] < |g| :: LocalDone(repo, g[Resolve(g, uses[i])], visited)
  }

  lemma UsesDoneCons(repo: Repo, g: Graph, uses: seq<Id>, before: set<string>, visited: set<string>)
    requires In(g, uses) && uses != [] && before <= visited
    requires LocalDone(repo, g[Resolve(g, uses[0])], before) && UsesDone(repo, g, uses[1..], visited)
    ensures UsesDone(repo, g, uses, visited)
  {
    assert forall i | 1 <= i < |uses| :: uses[i] == uses[1..][i - 1];
  }

  lemma {:induction false} LocalsSettle(repo: Repo, s: Search, path: string, g: Graph, uses: seq<Id>)
    requires In(g, uses) && CheckLocals(repo, s, path, g, uses).findings == s.findings
    ensures var r := CheckLocals(repo, s, path, g, uses);
            AllSettled(repo, s.visited, r.visited) && UsesDone(repo, g, uses, r.visited)
    decreases |uses|
  {
    if uses != [] {
      var node := g[Resolve(g, uses[0])];
      var s1 := if node.Scalar? && LocalPrefix <= node.value then CheckLocalAction(repo, s, path, node.value) else s;
      var r := CheckLocals(repo, s1, path, g, uses[1..]);
      assert s1.findings == s.findings;
      LocalsSettle(repo, s1, path, g, uses[1..]);
      if node.Scalar? && IsAction(node.value) {
        LocalActionSettles(repo, s, path, node.value);
      }
      SettledJoins(repo, s.visited, s1.visited, r.visited);
      UsesDoneCons(repo, g, uses, s1.visited, r.visited);
    }
  }

  ghost predicate DocDone(repo: Repo, doc: Doc, visited: set<string>) {
    forall node | DocUse(doc, node) :: UseDone(repo, node, visited)
  }

  lemma DocUsesDone(repo: Repo, doc: Doc, visited: set<string>)
    requires var uses := WorkflowUses(doc.graph, doc.root);
             PinnedUses(doc.graph, uses) && UsesDone(repo, doc.graph, uses, visited)
    ensures DocDone(repo, doc, visited)
  {
    var g, uses := doc.graph, WorkflowUses(doc.graph, doc.root);
    forall node | DocUse(doc, node)
      ensures UseDone(repo, node, visited)
    {
      var use: Id :| use < |g| && IsWorkflowUse(g, doc.root, use) && node == g[Resolve(g, use)];
      WorkflowUsesIff(g, doc.root, use);
      OneUseDone(repo, g, uses, use, visited);
    }
  }

  lemma OneUseDone(repo: Repo, g: Graph, uses: seq<Id>, use: Id, visited: set<string>)
    requires PinnedUses(g, uses) && UsesDone(repo, g, uses, visited) && use in uses && use < |g|
    ensures UseDone(repo, g[Resolve(g, use)], visited)
  {
    var i :| 0 <= i < |uses| && uses[i] == use;
    assert IsPinned(g[Resolve(g, uses[i])]) && LocalDone(repo, g[Resolve(g, uses[i])], visited);
  }

  lemma DocumentSettles(repo: Repo, s: Search, path: string, doc: Doc)
    requires CheckDocument(repo, s, path, doc).findings == s.findings
    ensures var r := CheckDocument(repo, s, path, doc);
            AllSettled(repo, s.visited, r.visited) && DocDone(repo, doc, r.visited)
  {
    var g, uses := doc.graph, WorkflowUses(doc.graph, doc.root);
    var found := NodeFindings(path, g, uses);
    var s1 := s.(findings := s.findings + found);
    var r := CheckLocals(repo, s1, path, g, uses);
    assert s1.findings <= r.findings && |r.findings| == |s.findings|;
    assert found == [] && s1.findings == s.findings;
    NoNodeFindings(path, g, uses);
    LocalsSettle(repo, s1, path, g, uses);
    DocUsesDone(repo, doc, r.visited);
  }

  lemma {:induction false} DocumentsSettle(repo: Repo, s: Search, path: string, docs: seq<Doc>)
    requires CheckDocuments(repo, s, path, docs).findings == s.findings
    ensures var r := CheckDocuments(repo, s, path, docs);
            AllSettled(repo, s.visited, r.visited) && forall doc | doc in docs :: DocDone(repo, doc, r.visited)
    decreases |docs|
  {
    if docs != [] {
      var s1 := CheckDocument(repo, s, path, docs[0]);
      var r := CheckDocuments(repo, s1, path, docs[1..]);
      assert s1.findings == s.findings;
      DocumentSettles(repo, s, path, docs[0]);
      DocumentsSettle(repo, s1, path, docs[1..]);
      SettledJoins(repo, s.visited, s1.visited, r.visited);
      DoneGrows(repo, docs[0], s1.visited, r.visited);
    }
  }

  lemma DoneGrows(repo: Repo, doc: Doc, a: set<string>, b: set<string>)
    requires DocDone(repo, doc, a) && a <= b
    ensures DocDone(repo, doc, b)
  {
    forall node | DocUse(doc, node)
      ensures UseDone(repo, node, b)
    {
      assert UseDone(repo, node, a);
    }
  }

  ghost predicate EntryDone(repo: Repo, e: Entry, visited: set<string>) {
    IsWorkflow(e) ==> e.complete && forall doc | doc in e.docs :: DocDone(repo, doc, visited)
  }

  lemma {:induction false} EntriesSettle(repo: Repo, s: Search, entries: seq<Entry>)
    requires CheckEntries(repo, s, entries).findings == s.findings
    ensures var r := CheckEntries(repo, s, entries);
            AllSettled(repo, s.visited, r.visited) && EntriesDone(repo, entries, r.visited)
    decreases |entries|
  {
    if entries != [] {
      var e := entries[0];
      var s1 := if IsWorkflow(e) then CheckWorkflowFile(repo, s, e) else s;
      var r := CheckEntries(repo, s1, entries[1..]);
      assert s1.findings == s.findings;
      if IsWorkflow(e) {
        assert e.complete;
        DocumentsSettle(repo, s, e.path, e.docs);
      }
      EntriesSettle(repo, s1, entries[1..]);
      SettledJoins(repo, s.visited, s1.visited, r.visited);
      EntryGrows(repo, e, s1.visited, r.visited);
    }
  }

  lemma EntryGrows(repo: Repo, e: Entry, a: set<string>, b: set<string>)
    requires EntryDone(repo, e, a) && a <= b
    ensures EntryDone(repo, e, b)
  {
    if IsWorkflow(e) {
      forall doc | doc in e.docs
        ensures DocDone(repo, doc, b)
      {
        DoneGrows(repo, doc, a, b);
      }
    }
  }

  ghost predicate EntriesDone(repo: Repo, entries: seq<Entry>, visited: set<string>) {
    forall e | e in entries :: EntryDone(repo, e, visited)
  }

  lemma WorkflowUseIsDone(repo: Repo, entries: seq<Entry>, visited: set<string>, node: Node)
    requires EntriesDone(repo, entries, visited) && WorkflowUse(entries, node)
    ensures UseDone(repo, node, visited)
  {
    var e, doc :| e in entries && IsWorkflow(e) && doc in e.docs && DocUse(doc, node);
    assert EntryDone(repo, e, visited) && DocDone(repo, doc, visited);
  }

  /** Every root is in the set, and no reference leads out of it. */
  ghost predicate HoldsReachable(links: Links, visited: set<string>) {
    && (forall m | links.root(m) :: m in visited)
    && (forall m, next | m in visited && links.next(m, next) :: next in visited)
  }

  lemma DoneHoldsReachable(repo: Repo, entries: seq<Entry>, visited: set<string>)
    requires AllSettled(repo, {}, visited) && EntriesDone(repo, entries, visited)
    ensures HoldsReachable(LinksOf(repo, entries), visited)
  {
    forall m | IsRoot(repo, entries, m)
      ensures m in visited
    {
      var node :| WorkflowUse(entries, node) && UseLeads(repo, node, m);
      WorkflowUseIsDone(repo, entries, visited, node);
    }
    forall m, next | m in visited && IsNext(repo, m, next)
      ensures next in visited
    {
      assert Settled(repo, m, visited);
    }
  }

  /** Whatever a chain of actions reaches, cycles included, was visited. */
  lemma {:induction false} ReachedIsVisited(links: Links, visited: set<string>, m: string, steps: nat)
    requires HoldsReachable(links, visited) && ReachedIn(links, m, steps)
    ensures m in visited
    decreases steps
  {
    if steps > 0 {
      var previous :| ReachedIn(links, previous, steps - 1) && links.next(previous, m);
      ReachedIsVisited(links, visited, previous, steps - 1);
    }
  }

  lemma NothingFoundIsScannedPinned(repo: Repo, entries: seq<Entry>)
    requires CheckEntries(repo, Search({}, []), entries).findings == []
    ensures AllScannedPinned(repo, entries)
  {
    var visited := CheckEntries(repo, Search({}, []), entries).visited;
    EntriesSettle(repo, Search({}, []), entries);
    forall e | e in entries && IsWorkflow(e)
      ensures e.complete
    {
      assert EntryDone(repo, e, visited);
    }
    forall node | WorkflowUse(entries, node)
      ensures UseGood(repo, node)
    {
      WorkflowUseIsDone(repo, entries, visited, node);
    }
    DoneHoldsReachable(repo, entries, visited);
    forall m | Reachable(repo, entries, m)
      ensures FileGood(repo, m)
    {
      var steps: nat :| ReachedIn(LinksOf(repo, entries), m, steps);
      ReachedIsVisited(LinksOf(repo, entries), visited, m, steps);
      assert Settled(repo, m, visited);
    }
  }

  // ----- everything pinned, no findings -----

  /** A set of good manifests that no reference leads out of. */
  ghost predicate Closed(repo: Repo, good: set<string>) {
    forall m | m in good :: Settled(repo, m, good)
  }

  lemma {:induction false} LocalActionIsClean(repo: Repo, good: set<string>, s: Search, source: string, target: string)
    requires Closed(repo, good)
    requires !IsReusable(target) ==>
               Manifests(repo, target).Ok? && forall m | m in Manifests(repo, target).value :: m in good
    ensures CheckLocalAction(repo, s, source, target).findings == s.findings
    decreases |Left(repo, s)|, 2, 0
  {
    if !IsReusable(target) {
      ManifestsAreClean(repo, good, s, Manifests(repo, target).value);
    }
  }

  lemma {:induction false} ManifestsAreClean(repo: Repo, good: set<string>, s: Search, manifests: seq<string>)
    requires Closed(repo, good) && forall m | m in manifests :: m in repo.files && m in good
    ensures CheckManifests(repo, s, manifests).findings == s.findings
    decreases |Left(repo, s)|, 1, |manifests|
  {
    if manifests != [] {
      if manifests[0] in s.visited {
        ManifestsAreClean(repo, good, s, manifests[1..]);
      } else {
        var s1 := s.(visited := s.visited + {manifests[0]});
        var s2 := CheckManifest(repo, s1, manifests[0]);
        VisitShrinks(repo, s, manifests[0]);
        LeftShrinks(repo, s, s2);
        ManifestIsClean(repo, good, s1, manifests[0]);
        ManifestsAreClean(repo, good, s2, manifests[1..]);
      }
    }
  }

  lemma {:induction false} ManifestIsClean(repo: Repo, good: set<string>, s: Search, path: string)
    requires Closed(repo, good) && path in repo.files && path in good
    ensures CheckManifest(repo, s, path).findings == s.findings
    decreases |Left(repo, s)|, 4, 0
  {
    assert Settled(repo, path, good);
    var doc := repo.files[path].value;
    var uses := ManifestUses(doc.graph, doc.root);
    forall use: Id | use in uses && use < |doc.graph|
      ensures UseDone(repo, doc.graph[Resolve(doc.graph, use)], good)
    {
      ManifestUsesIff(doc.graph, doc.root, use);
      assert ManifestUse(repo, path, doc.graph[Resolve(doc.graph, use)]);
    }
    UsesAreClean(repo, good, s, path, doc.graph, uses);
  }

  lemma {:induction false} UsesAreClean(repo: Repo, good: set<string>, s: Search, path: string, g: Graph, uses: seq<Id>)
    requires In(g, uses) && Closed(repo, good)
    requires forall use: Id | use in uses && use < |g| :: UseDone(repo, g[Resolve(g, use)], good)
    ensures CheckUses(repo, s, path, g, uses).findings == s.findings
    decreases |Left(repo, s)|, 3, |uses|
  {
    if uses != [] {
      var node := g[Resolve(g, uses[0])];
      var s1 := CheckUse(repo, s, path, node);
      LeftShrinks(repo, s, s1);
      UseIsClean(repo, good, s, path, node);
      UsesAreClean(repo, good, s1, path, g, uses[1..]);
    }
  }

  lemma {:induction false} UseIsClean(repo: Repo, good: set<string>, s: Search, path: string, node: Node)
    requires Closed(repo, good) && UseDone(repo, node, good)
    ensures CheckUse(repo, s, path, node).findings == s.findings
    decreases |Left(repo, s)|, 2, 1
  {
    if LocalPrefix <= node.value {
      if !IsReusable(node.value) {
        UseTargets(repo, good, node);
      }
      LocalActionIsClean(repo, good, s, path, node.value);
    }
  }

  lemma UseTargets(repo: Repo, good: set<string>, node: Node)
    requires UseDone(repo, node, good) && LocalPrefix <= node.value && !IsReusable(node.value)
    ensures Manifests(repo, node.value).Ok? && forall m | m in Manifests(repo, node.value).value :: m in good
  {
    assert forall m | m in Manifests(repo, node.value).value :: UseLeads(repo, node, m);
  }

  lemma {:induction false} LocalsAreClean(repo: Repo, good: set<string>, s: Search, path: string, g: Graph,
                                          uses: seq<Id>)
    requires In(g, uses) && Closed(repo, good)
    requires forall use: Id | use in uses && use < |g| :: UseDone(repo, g[Resolve(g, use)], good)
    ensures CheckLocals(repo, s, path, g, uses).findings == s.findings
    decreases |uses|
  {
    if uses != [] {
      var node := g[Resolve(g, uses[0])];
      var s1 := if node.Scalar? && LocalPrefix <= node.value then CheckLocalAction(repo, s, path, node.value) else s;
      assert UseDone(repo, node, good);
      UseIsClean(repo, good, s, path, node);
      LocalsAreClean(repo, good, s1, path, g, uses[1..]);
    }
  }

  lemma DocUses(repo: Repo, good: set<string>, doc: Doc)
    requires DocDone(repo, doc, good)
    ensures forall use: Id | use in WorkflowUses(doc.graph, doc.root) && use < |doc.graph| ::
              UseDone(repo, doc.graph[Resolve(doc.graph, use)], good)
  {
    forall use: Id | use in WorkflowUses(doc.graph, doc.root) && use < |doc.graph|
      ensures UseDone(repo, doc.graph[Resolve(doc.graph, use)], good)
    {
      WorkflowUsesIff(doc.graph, doc.root, use);
      assert DocUse(doc, doc.graph[Resolve(doc.graph, use)]);
    }
  }

  lemma DoneUsesArePinned(repo: Repo, good: set<string>, g: Graph, uses: seq<Id>)
    requires In(g, uses) && forall use: Id | use in uses && use < |g| :: UseDone(repo, g[Resolve(g, use)], good)
    ensures PinnedUses(g, uses)
  {
    forall i | 0 <= i < |uses|
      ensures IsPinned(g[Resolve(g, uses[i])])
    {
      assert UseDone(repo, g[Resolve(g, uses[i])], good);
    }
  }

  lemma DocumentIsClean(repo: Repo, good: set<string>, s: Search, path: string, doc: Doc)
    requires Closed(repo, good) && DocDone(repo, doc, good)
    ensures CheckDocument(repo, s, path, doc).findings == s.findings
  {
    var g, uses := doc.graph, WorkflowUses(doc.graph, doc.root);
    DocUses(repo, good, doc);
    DoneUsesArePinned(repo, good, g, uses);
    NoNodeFindings(path, g, uses);
    assert s.findings + [] == s.findings;
    LocalsAreClean(repo, good, s, path, g, uses);
  }

  lemma {:induction false} DocumentsAreClean(repo: Repo, good: set<string>, s: Search, path: string, docs: seq<Doc>)
    requires Closed(repo, good) && forall doc | doc in docs :: DocDone(repo, doc, good)
    ensures CheckDocuments(repo, s, path, docs).findings == s.findings
    decreases |docs|
  {
    if docs != [] {
      DocumentIsClean(repo, good, s, path, docs[0]);
      DocumentsAreClean(repo, good, CheckDocument(repo, s, path, docs[0]), path, docs[1..]);
    }
  }

  lemma {:induction false} EntriesAreClean(repo: Repo, good: set<string>, s: Search, entries: seq<Entry>)
    requires Closed(repo, good) && EntriesDone(repo, entries, good)
    ensures CheckEntries(repo, s, entries).findings == s.findings
    decreases |entries|
  {
    if entries != [] {
      var e := entries[0];
      assert EntryDone(repo, e, good);
      if IsWorkflow(e) {
        DocumentsAreClean(repo, good, s, e.path, e.docs);
      }
      EntriesAreClean(repo, good, if IsWorkflow(e) then CheckWorkflowFile(repo, s, e) else s, entries[1..]);
    }
  }

  lemma NextIsReached(links: Links, m: string, next: string)
    requires Reached(links, m) && links.next(m, next)
    ensures Reached(links, next)
  {
    var steps: nat :| ReachedIn(links, m, steps);
    assert ReachedIn(links, next, steps + 1);
  }

  lemma RootIsReached(links: Links, m: string)
    requires links.root(m)
    ensures Reached(links, m)
  {
    assert ReachedIn(links, m, 0);
  }

  /** The reachable manifests. */
  ghost function ReachableFiles(repo: Repo, entries: seq<Entry>): set<string> {
    set m | m in repo.files && Reachable(repo, entries, m)
  }

  lemma ReachableIsClosed(repo: Repo, entries: seq<Entry>)
    requires AllScannedPinned(repo, entries)
    ensures Closed(repo, ReachableFiles(repo, entries))
  {
    var good := ReachableFiles(repo, entries);
    forall m | m in good
      ensures Settled(repo, m, good)
    {
      forall next | IsNext(repo, m, next)
        ensures next in good
      {
        NextIsReached(LinksOf(repo, entries), m, next);
      }
    }
  }

  lemma PinnedUseIsDone(repo: Repo, entries: seq<Entry>, node: Node)
    requires AllScannedPinned(repo, entries) && WorkflowUse(entries, node)
    ensures UseDone(repo, node, ReachableFiles(repo, entries))
  {
    forall m | UseLeads(repo, node, m)
      ensures m in ReachableFiles(repo, entries)
    {
      assert IsRoot(repo, entries, m);
      RootIsReached(LinksOf(repo, entries), m);
    }
  }

  lemma PinnedEntriesAreDone(repo: Repo, entries: seq<Entry>)
    requires AllScannedPinned(repo, entries)
    ensures EntriesDone(repo, entries, ReachableFiles(repo, entries))
  {
    var good := ReachableFiles(repo, entries);
    forall e, doc, node | e in entries && IsWorkflow(e) && doc in e.docs && DocUse(doc, node)
      ensures UseDone(repo, node, good)
    {
      PinnedUseIsDone(repo, entries, node);
    }
    forall e | e in entries
      ensures EntryDone(repo, e, good)
    {
    }
  }

  /** The check reports nothing if and only if everything scanned parsed and every reference in it, or in any
      local action that any chain of followed references reaches, is good. */
  lemma ScanIsExact(repo: Repo, entries: seq<Entry>)
    ensures CheckEntries(repo, Search({}, []), entries).findings == [] <==> AllScannedPinned(repo, entries)
  {
    if CheckEntries(repo, Search({}, []), entries).findings == [] {
      NothingFoundIsScannedPinned(repo, entries);
    }
    if AllScannedPinned(repo, entries) {
      ReachableIsClosed(repo, entries);
      PinnedEntriesAreDone(repo, entries);
      EntriesAreClean(repo, ReachableFiles(repo, entries), Search({}, []), entries);
    }
  }
}

/**
  What the check is for: the uses of all jobs, merged ones included, and of every local action they reach, whatever
  the shape of the reference.
 */
module WorkflowPinsExact {
  import opened YamlNodes
  import opened WorkflowPins
  import opened WorkflowJobs
  import opened WorkflowPinsSearch
  import opened WorkflowPinsTheorem

  /** A reference of any job of the document. */
  ghost predicate TrueDocUse(doc: Doc, node: Node) {
    exists use: Id ::
      use < |doc.graph| && IsTrueUse(doc.graph, doc.root, use) && node == doc.graph[Resolve(doc.graph, use)]
  }

  /** A reference of any job of a workflow. */
  ghost predicate TrueWorkflowUse(entries: seq<Entry>, node: Node) {
    exists e, doc :: e in entries && IsWorkflow(e) && doc in e.docs && TrueDocUse(doc, node)
  }

  /** The reference names the manifest of a local action. */
  predicate Names(repo: Repo, node: Node, m: string) {
    && node.Scalar? && LocalPrefix <= node.value && Manifests(repo, node.value).Ok?
    && m in Manifests(repo, node.value).value
  }

  /** It does, and has the shape of a reusable workflow. */
  predicate NamesUnfollowed(repo: Repo, node: Node, m: string) {
    Names(repo, node, m) && IsReusable(node.value)
  }

  lemma NamedIsFollowed(repo: Repo, node: Node, m: string)
    ensures Names(repo, node, m) <==> UseLeads(repo, node, m) || NamesUnfollowed(repo, node, m)
  {
    assert IsReusable(if node.Scalar? then node.value else "") ==> "./.github/workflows/"[..2] == LocalPrefix;
  }

  // ----- where the references of all jobs lead -----

  ghost predicate IsTrueRoot(repo: Repo, entries: seq<Entry>, m: string) {
    exists node :: TrueWorkflowUse(entries, node) && UseLeads(repo, node, m)
  }

  ghost predicate IsNamedRoot(repo: Repo, entries: seq<Entry>, m: string) {
    exists node :: TrueWorkflowUse(entries, node) && Names(repo, node, m)
  }

  ghost predicate IsNamedNext(repo: Repo, path: string, next: string) {
    exists node :: ManifestUse(repo, path, node) && Names(repo, node, next)
  }

  /** By the references that the search follows. */
  ghost function TrueLinksOf(repo: Repo, entries: seq<Entry>): Links {
    Links(m => IsTrueRoot(repo, entries, m), (m, next) => IsNext(repo, m, next))
  }

  /** By all references. */
  ghost function AllLinksOf(repo: Repo, entries: seq<Entry>): Links {
    Links(m => IsNamedRoot(repo, entries, m), (m, next) => IsNamedNext(repo, m, next))
  }

  /** Everything parsed, and every reference of every job, or of a local action that any chain of references
      reaches, is good. */
  ghost predicate AllPinned(repo: Repo, entries: seq<Entry>) {
    && (forall e | e in entries && IsWorkflow(e) :: e.complete)
    && (forall node | TrueWorkflowUse(entries, node) :: UseGood(repo, node))
    && (forall m | Reached(AllLinksOf(repo, entries), m) :: FileGood(repo, m))
  }

  /** The links reach what the unfollowed references of a job name. */
  ghost predicate JobsAreBacked(repo: Repo, entries: seq<Entry>, links: Links) {
    forall node, m | TrueWorkflowUse(entries, node) && NamesUnfollowed(repo, node, m) :: Reached(links, m)
  }

  ghost predicate ActionIsBacked(repo: Repo, path: string, links: Links) {
    forall node, m | ManifestUse(repo, path, node) && NamesUnfollowed(repo, node, m) :: Reached(links, m)
  }

  /** Read off the repository: what a reference with the shape of a reusable workflow names, in a job or in an
      action that followed references reach, is reached by followed references as well. */
  ghost predicate NothingUnfollowed(repo: Repo, entries: seq<Entry>) {
    var followed := TrueLinksOf(repo, entries);
    && JobsAreBacked(repo, entries, followed)
    && (forall path | Reached(followed, path) :: ActionIsBacked(repo, path, followed))
  }

  /** No merge into the `jobs` of any document hides a use. */
  ghost predicate NothingHidden(entries: seq<Entry>) {
    forall e, doc | e in entries && IsWorkflow(e) && doc in e.docs :: MergesHideNothing(doc.graph, doc.root)
  }

  ghost predicate NothingAdded(entries: seq<Entry>) {
    forall e, doc | e in entries && IsWorkflow(e) && doc in e.docs :: MergesAddNothing(doc.graph, doc.root)
  }

  // ----- reading the scan's result over all uses -----

  lemma TrueDocUseIsSeen(doc: Doc, node: Node)
    requires MergesHideNothing(doc.graph, doc.root) && TrueDocUse(doc, node)
    ensures DocUse(doc, node)
  {
    var use: Id :| use < |doc.graph| && IsTrueUse(doc.graph, doc.root, use) &&
                   node == doc.graph[Resolve(doc.graph, use)];
    TrueUseIsSeen(doc.graph, doc.root, use);
  }

  lemma SeenDocUseIsTrue(doc: Doc, node: Node)
    requires MergesAddNothing(doc.graph, doc.root) && DocUse(doc, node)
    ensures TrueDocUse(doc, node)
  {
    var use: Id :| use < |doc.graph| && IsWorkflowUse(doc.graph, doc.root, use) &&
                   node == doc.graph[Resolve(doc.graph, use)];
    SeenIsTrueUse(doc.graph, doc.root, use);
  }

  lemma TrueUseIsScanned(entries: seq<Entry>, node: Node)
    requires NothingHidden(entries) && TrueWorkflowUse(entries, node)
    ensures WorkflowUse(entries, node)
  {
    var e, doc :| e in entries && IsWorkflow(e) && doc in e.docs && TrueDocUse(doc, node);
    TrueDocUseIsSeen(doc, node);
  }

  lemma ScannedUseIsTrue(entries: seq<Entry>, node: Node)
    requires NothingAdded(entries) && WorkflowUse(entries, node)
    ensures TrueWorkflowUse(entries, node)
  {
    var e, doc :| e in entries && IsWorkflow(e) && doc in e.docs && DocUse(doc, node);
    SeenDocUseIsTrue(doc, node);
  }

  // ----- chains -----

  ghost predicate FewerLinks(a: Links, b: Links) {
    (forall x | a.root(x) :: b.root(x)) && (forall x, y | a.next(x, y) :: b.next(x, y))
  }

  lemma {:induction false} ReachedFromMore(a: Links, b: Links, m: string, steps: nat)
    requires FewerLinks(a, b) && ReachedIn(a, m, steps)
    ensures ReachedIn(b, m, steps)
    decreases steps
  {
    if steps > 0 {
      var previous :| ReachedIn(a, previous, steps - 1) && a.next(previous, m);
      ReachedFromMore(a, b, previous, steps - 1);
    }
  }

  lemma MoreLinksReachMore(a: Links, b: Links)
    requires FewerLinks(a, b)
    ensures forall m | Reached(a, m) :: Reached(b, m)
  {
    forall m | Reached(a, m)
      ensures Reached(b, m)
    {
      var steps: nat :| ReachedIn(a, m, steps);
      ReachedFromMore(a, b, m, steps);
    }
  }

  ghost predicate RootsCaught(a: Links, b: Links) {
    forall m | b.root(m) :: Reached(a, m)
  }

  ghost predicate NextCaught(a: Links, b: Links, p: string) {
    forall m | b.next(p, m) :: Reached(a, m)
  }

  /** One step of the other links, taken where these links reach, leads where these links reach. */
  ghost predicate CatchesUp(a: Links, b: Links) {
    RootsCaught(a, b) && forall p | Reached(a, p) :: NextCaught(a, b, p)
  }

  lemma {:induction false} CaughtUp(a: Links, b: Links, m: string, steps: nat)
    requires CatchesUp(a, b) && ReachedIn(b, m, steps)
    ensures Reached(a, m)
    decreases steps
  {
    if steps > 0 {
      var previous :| ReachedIn(b, previous, steps - 1) && b.next(previous, m);
      CaughtUp(a, b, previous, steps - 1);
      assert NextCaught(a, b, previous);
    }
  }

  lemma CatchesUpIff(a: Links, b: Links)
    requires FewerLinks(a, b)
    ensures (forall m | Reached(b, m) :: Reached(a, m)) <==> CatchesUp(a, b)
  {
    if CatchesUp(a, b) {
      forall m | Reached(b, m)
        ensures Reached(a, m)
      {
        var steps: nat :| ReachedIn(b, m, steps);
        CaughtUp(a, b, m, steps);
      }
    }
    if forall m | Reached(b, m) :: Reached(a, m) {
      MoreLinksReachMore(a, b);
      forall m | b.root(m)
        ensures Reached(a, m)
      {
        RootIsReached(b, m);
      }
      forall p, m | Reached(a, p) && b.next(p, m)
        ensures Reached(a, m)
      {
        NextIsReached(b, p, m);
      }
      assert forall p | Reached(a, p) :: NextCaught(a, b, p);
    }
  }

  lemma FollowedAreNamed(repo: Repo, entries: seq<Entry>)
    ensures FewerLinks(TrueLinksOf(repo, entries), AllLinksOf(repo, entries))
  {
    forall m | IsTrueRoot(repo, entries, m)
      ensures IsNamedRoot(repo, entries, m)
    {
      var node :| TrueWorkflowUse(entries, node) && UseLeads(repo, node, m);
      NamedIsFollowed(repo, node, m);
    }
    forall p, m | IsNext(repo, p, m)
      ensures IsNamedNext(repo, p, m)
    {
      var node :| ManifestUse(repo, p, node) && UseLeads(repo, node, m);
      NamedIsFollowed(repo, node, m);
    }
  }

  lemma JobsAreBackedIff(repo: Repo, entries: seq<Entry>, links: Links)
    requires forall m | IsTrueRoot(repo, entries, m) :: Reached(links, m)
    ensures JobsAreBacked(repo, entries, links) <==> RootsCaught(links, AllLinksOf(repo, entries))
  {
    if JobsAreBacked(repo, entries, links) {
      forall m | IsNamedRoot(repo, entries, m)
        ensures Reached(links, m)
      {
        var node :| TrueWorkflowUse(entries, node) && Names(repo, node, m);
        NamedIsFollowed(repo, node, m);
        assert UseLeads(repo, node, m) ==> IsTrueRoot(repo, entries, m);
      }
    }
  }

  lemma ActionIsBackedIff(repo: Repo, entries: seq<Entry>, path: string, links: Links)
    requires forall m | IsNext(repo, path, m) :: Reached(links, m)
    ensures ActionIsBacked(repo, path, links) <==> NextCaught(links, AllLinksOf(repo, entries), path)
  {
    if ActionIsBacked(repo, path, links) {
      forall m | IsNamedNext(repo, path, m)
        ensures Reached(links, m)
      {
        var node :| ManifestUse(repo, path, node) && Names(repo, node, m);
        NamedIsFollowed(repo, node, m);
        assert UseLeads(repo, node, m) ==> IsNext(repo, path, m);
      }
    }
  }

  lemma RootsAreReached(links: Links)
    ensures forall m | links.root(m) :: Reached(links, m)
  {
    forall m | links.root(m)
      ensures Reached(links, m)
    {
      RootIsReached(links, m);
    }
  }

  lemma NextsAreReached(links: Links, path: string)
    requires Reached(links, path)
    ensures forall m | links.next(path, m) :: Reached(links, m)
  {
    forall m | links.next(path, m)
      ensures Reached(links, m)
    {
      NextIsReached(links, path, m);
    }
  }

  lemma FollowedJobsIff(repo: Repo, entries: seq<Entry>)
    ensures var followed := TrueLinksOf(repo, entries);
            JobsAreBacked(repo, entries, followed) <==> RootsCaught(followed, AllLinksOf(repo, entries))
  {
    var followed := TrueLinksOf(repo, entries);
    RootsAreReached(followed);
    assert forall m | IsTrueRoot(repo, entries, m) :: followed.root(m);
    JobsAreBackedIff(repo, entries, followed);
  }

  lemma FollowedActionIff(repo: Repo, entries: seq<Entry>, path: string)
    requires Reached(TrueLinksOf(repo, entries), path)
    ensures var followed := TrueLinksOf(repo, entries);
            ActionIsBacked(repo, path, followed) <==> NextCaught(followed, AllLinksOf(repo, entries), path)
  {
    var followed := TrueLinksOf(repo, entries);
    NextsAreReached(followed, path);
    assert forall m | IsNext(repo, path, m) :: followed.next(path, m);
    ActionIsBackedIff(repo, entries, path, followed);
  }

  lemma NothingUnfollowedIff(repo: Repo, entries: seq<Entry>)
    ensures NothingUnfollowed(repo, entries) <==> CatchesUp(TrueLinksOf(repo, entries), AllLinksOf(repo, entries))
  {
    FollowedJobsIff(repo, entries);
    forall path | Reached(TrueLinksOf(repo, entries), path)
      ensures ActionIsBacked(repo, path, TrueLinksOf(repo, entries)) <==>
              NextCaught(TrueLinksOf(repo, entries), AllLinksOf(repo, entries), path)
    {
      FollowedActionIff(repo, entries, path);
    }
  }

  /** The references that are followed reach every local action that any reference reaches, if and only if whatever
      a reference with the shape of a reusable workflow names is reached by others too. */
  lemma EveryActionIsFollowedIff(repo: Repo, entries: seq<Entry>)
    ensures (forall m | Reached(AllLinksOf(repo, entries), m) :: Reached(TrueLinksOf(repo, entries), m)) <==>
            NothingUnfollowed(repo, entries)
  {
    FollowedAreNamed(repo, entries);
    CatchesUpIff(TrueLinksOf(repo, entries), AllLinksOf(repo, entries));
    NothingUnfollowedIff(repo, entries);
  }

  lemma TrueRootsAreScanned(repo: Repo, entries: seq<Entry>)
    requires NothingHidden(entries)
    ensures forall m | IsTrueRoot(repo, entries, m) :: IsRoot(repo, entries, m)
  {
    forall m | IsTrueRoot(repo, entries, m)
      ensures IsRoot(repo, entries, m)
    {
      var node :| TrueWorkflowUse(entries, node) && UseLeads(repo, node, m);
      TrueUseIsScanned(entries, node);
    }
  }

  lemma ScannedRootsAreTrue(repo: Repo, entries: seq<Entry>)
    requires NothingAdded(entries)
    ensures forall m | IsRoot(repo, entries, m) :: IsTrueRoot(repo, entries, m)
  {
    forall m | IsRoot(repo, entries, m)
      ensures IsTrueRoot(repo, entries, m)
    {
      var node :| WorkflowUse(entries, node) && UseLeads(repo, node, m);
      ScannedUseIsTrue(entries, node);
    }
  }

  lemma ScannedIsAll(repo: Repo, entries: seq<Entry>)
    requires NothingHidden(entries) && NothingUnfollowed(repo, entries) && AllScannedPinned(repo, entries)
    ensures AllPinned(repo, entries)
  {
    forall node | TrueWorkflowUse(entries, node)
      ensures UseGood(repo, node)
    {
      TrueUseIsScanned(entries, node);
    }
    TrueRootsAreScanned(repo, entries);
    MoreLinksReachMore(TrueLinksOf(repo, entries), LinksOf(repo, entries));
    EveryActionIsFollowedIff(repo, entries);
    forall m | Reached(AllLinksOf(repo, entries), m)
      ensures FileGood(repo, m)
    {
      assert Reachable(repo, entries, m);
    }
  }

  lemma AllIsScanned(repo: Repo, entries: seq<Entry>)
    requires NothingAdded(entries) && AllPinned(repo, entries)
    ensures AllScannedPinned(repo, entries)
  {
    forall node | WorkflowUse(entries, node)
      ensures UseGood(repo, node)
    {
      ScannedUseIsTrue(entries, node);
    }
    ScannedRootsAreTrue(repo, entries);
    MoreLinksReachMore(LinksOf(repo, entries), TrueLinksOf(repo, entries));
    FollowedAreNamed(repo, entries);
    MoreLinksReachMore(TrueLinksOf(repo, entries), AllLinksOf(repo, entries));
    forall m | Reachable(repo, entries, m)
      ensures FileGood(repo, m)
    {
      assert Reached(AllLinksOf(repo, entries), m);
    }
  }

  /** No findings: every use of every job, and of every local action that any chain of uses reaches, is pinned,
      provided that no merge into `jobs` hides one and no local action is named by references alone that the search
      does not follow. */
  lemma NothingFoundIsPinned(repo: Repo, entries: seq<Entry>)
    requires NothingHidden(entries) && NothingUnfollowed(repo, entries)
    requires CheckEntries(repo, Search({}, []), entries).findings == []
    ensures AllPinned(repo, entries)
  {
    NothingFoundIsScannedPinned(repo, entries);
    ScannedIsAll(repo, entries);
  }

  /** Findings are never spurious, unless a merge key adds a use. */
  lemma PinnedIsNotReported(repo: Repo, entries: seq<Entry>)
    requires NothingAdded(entries) && AllPinned(repo, entries)
    ensures CheckEntries(repo, Search({}, []), entries).findings == []
  {
    AllIsScanned(repo, entries);
    ScanIsExact(repo, entries);
  }

  /** Under these conditions nothing is reported if and only if everything parsed and every reference of every job,
      or of any local action that is reached, is good. */
  lemma CheckIsExact(repo: Repo, entries: seq<Entry>)
    requires NothingHidden(entries) && NothingAdded(entries) && NothingUnfollowed(repo, entries)
    ensures CheckEntries(repo, Search({}, []), entries).findings == [] <==> AllPinned(repo, entries)
  {
    if CheckEntries(repo, Search({}, []), entries).findings == [] {
      NothingFoundIsPinned(repo, entries);
    }
    if AllPinned(repo, entries) {
      PinnedIsNotReported(repo, entries);
    }
  }

  // ----- workflows that pass -----

  lemma OneDocumentPasses(repo: Repo, e: Entry, doc: Doc)
    requires e.docs == [doc] && e.complete && CheckDocument(repo, Search({}, []), e.path, doc) == Search({}, [])
    ensures CheckEntries(repo, Search({}, []), [e]) == Search({}, [])
  {
    var s := Search({}, []);
    assert [doc][1..] == [] && CheckDocuments(repo, s, e.path, []) == s;
    assert CheckDocuments(repo, s, e.path, [doc]) == s;
    assert [e][1..] == [] && CheckEntries(repo, s, []) == s;
  }

  lemma OneDocumentUse(e: Entry, doc: Doc, node: Node)
    requires IsWorkflow(e) && e.docs == [doc] && TrueDocUse(doc, node)
    ensures TrueWorkflowUse([e], node)
  {
    assert e in [e] && doc in e.docs;
  }

  lemma BadUseIsNotPinned(repo: Repo, e: Entry, doc: Doc, use: Id)
    requires IsWorkflow(e) && e.docs == [doc] && use < |doc.graph| && IsTrueUse(doc.graph, doc.root, use)
    requires doc.graph[use].Scalar? && !ValidTarget(doc.graph[use].value)
    ensures !AllPinned(repo, [e])
  {
    var node := doc.graph[use];
    assert Resolve(doc.graph, use) == use;
    assert TrueDocUse(doc, node);
    OneDocumentUse(e, doc, node);
    assert !UseGood(repo, node);
  }

  /** A workflow whose only job is merged in and not pinned passes the check, in every repository. */
  lemma MergedJobPasses(repo: Repo)
    ensures var doc: Doc := ParsedDocument(Merged(), 0);
            var entries := [Entry("ci.yml", false, [doc], true)];
            CheckEntries(repo, Search({}, []), entries).findings == [] && !AllPinned(repo, entries)
  {
    var doc: Doc := ParsedDocument(Merged(), 0);
    var e := Entry("ci.yml", false, [doc], true);
    assert IsWorkflow(e) by {
      assert "ci.yml"[2..] == ".yml";
    }
    MergedJobIsMissed();
    assert CheckDocument(repo, Search({}, []), e.path, doc) == Search({}, []);
    OneDocumentPasses(repo, e, doc);
    BadUseIsNotPinned(repo, e, doc, 8);
  }
}

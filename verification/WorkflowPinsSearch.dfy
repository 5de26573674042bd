/**
  The search through the local actions: depth first, each manifest once, over any graph of actions.
 */
module WorkflowPinsSearch {
  import opened Common
  import opened YamlNodes
  import opened WorkflowPins

  datatype ParsedDocument = ParsedDocument(graph: Graph, root: Id)

  type Doc = d: ParsedDocument | d.root < |d.graph| witness ParsedDocument([Scalar("")], 0)

  datatype Problem = NotScalar | NotPinned | Escapes | Uninspectable | NoManifest | Unparsed

  datatype Finding = Finding(source: string, problem: Problem)

  /** The manifest files there are (unparsed ones as None), paths that cannot be inspected, and the
      directory inside the repository, if any, that a local reference names. */
  datatype Repo = Repo(files: map<string, Option<Doc>>, broken: set<string>, locate: string -> Option<string>)

  predicate EndsWith(s: string, suffix: string) {
    |suffix| <= |s| && s[|s| - |suffix|..] == suffix
  }

  predicate IsYaml(name: string) {
    EndsWith(name, ".yml") || EndsWith(name, ".yaml")
  }

  lemma YamlNamesAre(name: string)
    ensures IsYaml(name) <==> exists stem :: name == stem + ".yml" || name == stem + ".yaml"
  {
    if EndsWith(name, ".yml") {
      assert name == name[..|name| - 4] + ".yml";
    }
    if EndsWith(name, ".yaml") {
      assert name == name[..|name| - 5] + ".yaml";
    }
  }

  /** A local reference with the shape of a reusable workflow, which the search does not follow. */
  predicate IsReusable(target: string) {
    "./.github/workflows/" <= target && IsYaml(target)
  }

  predicate IsManifestOf(dir: string, m: string) {
    m == dir + "/action.yml" || m == dir + "/action.yaml"
  }

  /** The manifests a local reference names: those of the two names that are there. */
  function Manifests(repo: Repo, target: string): (r: Reply<seq<string>, Problem>)
    ensures r.Ok? ==> r.value != [] && forall m | m in r.value :: m in repo.files
    ensures r.Ok? ==> repo.locate(target).Some? &&
                      forall m :: m in r.value <==> m in repo.files && IsManifestOf(repo.locate(target).value, m)
    ensures r == Failed(Escapes) <==> repo.locate(target).None?
    ensures r == Failed(NoManifest) ==> forall m | IsManifestOf(repo.locate(target).value, m) :: m !in repo.files
    ensures r == Failed(Uninspectable) ==> exists m | m in repo.broken :: IsManifestOf(repo.locate(target).value, m)
  {
    match repo.locate(target)
    case None => Failed(Escapes)
    case Some(dir) =>
      var yml, yaml := dir + "/action.yml", dir + "/action.yaml";
      if (yml !in repo.files && yml in repo.broken) || (yaml !in repo.files && yaml in repo.broken) then
        Failed(Uninspectable)
      else
        var found := (if yml in repo.files then [yml] else []) + (if yaml in repo.files then [yaml] else []);
        if found == [] then Failed(NoManifest) else Ok(found)
  }

  /** A local reference that the search follows. */
  predicate IsAction(target: string) {
    LocalPrefix <= target && !IsReusable(target)
  }

  // ----- the search -----

  datatype Search = Search(visited: set<string>, findings: seq<Finding>)

  function Report(s: Search, source: string, problem: Problem): Search {
    s.(findings := s.findings + [Finding(source, problem)])
  }

  function Left(repo: Repo, s: Search): set<string> {
    repo.files.Keys - s.visited
  }

  predicate Extends(s: Search, r: Search) {
    s.visited <= r.visited && s.findings <= r.findings
  }

  lemma LeftShrinks(repo: Repo, s: Search, r: Search)
    requires Extends(s, r)
    ensures |Left(repo, r)| <= |Left(repo, s)|
  {
    SubsetSize(Left(repo, r), Left(repo, s));
  }

  lemma {:induction false} SubsetSize(a: set<string>, b: set<string>)
    requires a <= b
    ensures |a| <= |b|
    decreases |a|
  {
    if a != {} {
      var x :| x in a;
      SubsetSize(a - {x}, b - {x});
    }
  }

  lemma VisitShrinks(repo: Repo, s: Search, m: string)
    requires m in repo.files && m !in s.visited
    ensures |Left(repo, s.(visited := s.visited + {m}))| < |Left(repo, s)|
  {
    assert Left(repo, s.(visited := s.visited + {m})) == Left(repo, s) - {m};
  }

  function CheckLocalAction(repo: Repo, s: Search, source: string, target: string): (r: Search)
    ensures Extends(s, r)
    decreases |Left(repo, s)|, 2, 0
  {
    if IsReusable(target) then s
    else
      var manifests := Manifests(repo, target);
      if manifests.Failed? then Report(s, source, manifests.error)
      else CheckManifests(repo, s, manifests.value)
  }

  function CheckManifests(repo: Repo, s: Search, manifests: seq<string>): (r: Search)
    requires forall m | m in manifests :: m in repo.files
    ensures Extends(s, r)
    decreases |Left(repo, s)|, 1, |manifests|
  {
    if manifests == [] then s
    else if manifests[0] in s.visited then CheckManifests(repo, s, manifests[1..])
    else
      VisitShrinks(repo, s, manifests[0]);
      var r := CheckManifest(repo, s.(visited := s.visited + {manifests[0]}), manifests[0]);
      LeftShrinks(repo, s, r);
      CheckManifests(repo, r, manifests[1..])
  }

  function CheckManifest(repo: Repo, s: Search, path: string): (r: Search)
    requires path in repo.files
    ensures Extends(s, r)
    decreases |Left(repo, s)|, 4, 0
  {
    match repo.files[path]
    case None => Report(s, path, Unparsed)
    case Some(doc) => CheckUses(repo, s, path, doc.graph, ManifestUses(doc.graph, doc.root))
  }

  function CheckUses(repo: Repo, s: Search, path: string, g: Graph, uses: seq<Id>): (r: Search)
    requires In(g, uses)
    ensures Extends(s, r)
    decreases |Left(repo, s)|, 3, |uses|
  {
    if uses == [] then s
    else
      var r := CheckUse(repo, s, path, g[Resolve(g, uses[0])]);
      LeftShrinks(repo, s, r);
      CheckUses(repo, r, path, g, uses[1..])
  }

  function CheckUse(repo: Repo, s: Search, path: string, node: Node): (r: Search)
    ensures Extends(s, r)
    decreases |Left(repo, s)|, 2, 1
  {
    if !node.Scalar? then Report(s, path, NotScalar)
    else if !ValidTarget(node.value) then Report(s, path, NotPinned)
    else if LocalPrefix <= node.value then CheckLocalAction(repo, s, path, node.value)
    else s
  }

  // ----- what it must establish -----

  /** A good reference: scalar and pinned, and, unless it has the shape of a reusable workflow, naming a local action
      that is there. */
  predicate UseGood(repo: Repo, node: Node) {
    && node.Scalar? && ValidTarget(node.value)
    && (IsAction(node.value) ==> Manifests(repo, node.value).Ok?)
  }

  /** The search follows the reference to the manifest. */
  predicate UseLeads(repo: Repo, node: Node, m: string) {
    && node.Scalar? && IsAction(node.value) && Manifests(repo, node.value).Ok?
    && m in Manifests(repo, node.value).value
  }

  ghost predicate ManifestUse(repo: Repo, path: string, node: Node) {
    && path in repo.files && repo.files[path].Some?
    && var doc := repo.files[path].value;
       exists use: Id :: use < |doc.graph| && IsManifestUse(doc.graph, doc.root, use) &&
                         node == doc.graph[Resolve(doc.graph, use)]
  }

  ghost predicate FileGood(repo: Repo, path: string) {
    path in repo.files && repo.files[path].Some? && forall node | ManifestUse(repo, path, node) :: UseGood(repo, node)
  }

  ghost predicate IsNext(repo: Repo, path: string, next: string) {
    exists node :: ManifestUse(repo, path, node) && UseLeads(repo, node, next)
  }

  /** The manifest is good, and wherever it leads has been visited. */
  ghost predicate Settled(repo: Repo, path: string, visited: set<string>) {
    FileGood(repo, path) && forall m | IsNext(repo, path, m) :: m in visited
  }

  ghost predicate AllSettled(repo: Repo, from: set<string>, to: set<string>) {
    forall m | m in to && m !in from :: Settled(repo, m, to)
  }

  lemma SettledJoins(repo: Repo, a: set<string>, b: set<string>, c: set<string>)
    requires AllSettled(repo, a, b) && AllSettled(repo, b, c) && b <= c
    ensures AllSettled(repo, a, c)
  {
    forall m | m in c && m !in a
      ensures Settled(repo, m, c)
    {
      assert m in b ==> Settled(repo, m, b);
    }
  }

  // ----- a search that finds nothing has settled everything it visited -----

  ghost predicate UseDone(repo: Repo, node: Node, visited: set<string>) {
    UseGood(repo, node) && forall m | UseLeads(repo, node, m) :: m in visited
  }

  lemma {:induction false} LocalActionSettles(repo: Repo, s: Search, source: string, target: string)
    requires CheckLocalAction(repo, s, source, target).findings == s.findings && !IsReusable(target)
    ensures var r := CheckLocalAction(repo, s, source, target);
            && AllSettled(repo, s.visited, r.visited) && Manifests(repo, target).Ok?
            && forall m | m in Manifests(repo, target).value :: m in r.visited
    decreases |Left(repo, s)|, 2, 0
  {
    var manifests := Manifests(repo, target);
    if manifests.Ok? {
      ManifestsSettle(repo, s, manifests.value);
    }
  }

  lemma {:induction false} ManifestsSettle(repo: Repo, s: Search, manifests: seq<string>)
    requires forall m | m in manifests :: m in repo.files
    requires CheckManifests(repo, s, manifests).findings == s.findings
    ensures var r := CheckManifests(repo, s, manifests);
            AllSettled(repo, s.visited, r.visited) && forall m | m in manifests :: m in r.visited
    decreases |Left(repo, s)|, 1, |manifests|
  {
    if manifests != [] {
      if manifests[0] in s.visited {
        ManifestsSettle(repo, s, manifests[1..]);
      } else {
        var s1 := s.(visited := s.visited + {manifests[0]});
        var s2 := CheckManifest(repo, s1, manifests[0]);
        var r := CheckManifests(repo, s2, manifests[1..]);
        VisitShrinks(repo, s, manifests[0]);
        LeftShrinks(repo, s, s2);
        assert s2.findings == s.findings;
        ManifestSettles(repo, s1, manifests[0]);
        assert AllSettled(repo, s.visited, s2.visited);
        ManifestsSettle(repo, s2, manifests[1..]);
        SettledJoins(repo, s.visited, s2.visited, r.visited);
      }
    }
  }

  lemma {:induction false} ManifestSettles(repo: Repo, s: Search, path: string)
    requires path in repo.files && CheckManifest(repo, s, path).findings == s.findings
    ensures var r := CheckManifest(repo, s, path);
            AllSettled(repo, s.visited, r.visited) && Settled(repo, path, r.visited)
    decreases |Left(repo, s)|, 4, 0
  {
    if repo.files[path].Some? {
      var doc := repo.files[path].value;
      var r := CheckManifest(repo, s, path);
      UsesSettle(repo, s, path, doc.graph, ManifestUses(doc.graph, doc.root));
      forall node | ManifestUse(repo, path, node)
        ensures UseDone(repo, node, r.visited)
      {
        var use: Id :| use < |doc.graph| && IsManifestUse(doc.graph, doc.root, use) &&
                       node == doc.graph[Resolve(doc.graph, use)];
        ManifestUsesIff(doc.graph, doc.root, use);
      }
    }
  }

  lemma {:induction false} UsesSettle(repo: Repo, s: Search, path: string, g: Graph, uses: seq<Id>)
    requires In(g, uses) && CheckUses(repo, s, path, g, uses).findings == s.findings
    ensures var r := CheckUses(repo, s, path, g, uses);
            && AllSettled(repo, s.visited, r.visited)
            && forall use: Id | use in uses && use < |g| :: UseDone(repo, g[Resolve(g, use)], r.visited)
    decreases |Left(repo, s)|, 3, |uses|
  {
    if uses != [] {
      var node := g[Resolve(g, uses[0])];
      var s1, r := CheckUse(repo, s, path, node), CheckUses(repo, s, path, g, uses);
      LeftShrinks(repo, s, s1);
      assert r == CheckUses(repo, s1, path, g, uses[1..]);
      assert s1.findings == s.findings;
      UseSettles(repo, s, path, node);
      UsesSettle(repo, s1, path, g, uses[1..]);
      SettledJoins(repo, s.visited, s1.visited, r.visited);
    }
  }

  lemma {:induction false} UseSettles(repo: Repo, s: Search, path: string, node: Node)
    requires CheckUse(repo, s, path, node).findings == s.findings
    ensures var r := CheckUse(repo, s, path, node);
            AllSettled(repo, s.visited, r.visited) && UseDone(repo, node, r.visited)
    decreases |Left(repo, s)|, 2, 1
  {
    if node.Scalar? && IsAction(node.value) {
      LocalActionSettles(repo, s, path, node.value);
    }
  }
}

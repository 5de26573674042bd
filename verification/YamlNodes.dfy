/**
  YAML documents as node graphs: anchors and aliases make them share nodes, and a mapping may merge itself.
 */
module YamlNodes {
  type Id = nat

  datatype Node =
    | Scalar(value: string)
    | Mapping(content: seq<Id>)
    | Sequence(content: seq<Id>)
    | Alias(target: Id)
    | Document(content: seq<Id>)

  function Children(node: Node): seq<Id> {
    match node
    case Scalar(_) => []
    case Mapping(c) => c
    case Sequence(c) => c
    case Alias(t) => [t]
    case Document(c) => c
  }

  predicate In(g: seq<Node>, ids: seq<Id>) {
    forall i | 0 <= i < |ids| :: ids[i] < |g|
  }

  /** What a parser builds: an alias stands for an anchored value, and a document's value is no document. */
  predicate WellFormed(g: seq<Node>) {
    forall n | 0 <= n < |g| ::
      && In(g, Children(g[n]))
      && (g[n].Alias? ==> g[n].target < |g| && Rank(g[g[n].target]) == 0)
      && (g[n].Document? && g[n].content != [] ==> g[n].content[0] < |g| && Rank(g[g[n].content[0]]) < 2)
  }

  type Graph = g: seq<Node> | WellFormed(g) witness []

  function Rank(node: Node): nat {
    match node
    case Document(_) => 2
    case Alias(_) => 1
    case _ => 0
  }

  /** The node an alias or a document stands for. */
  function Resolve(g: Graph, n: Id): (m: Id)
    requires n < |g|
    ensures m < |g| && !g[m].Alias? && (g[m].Document? ==> g[m].content == [])
    decreases Rank(g[n])
  {
    match g[n]
    case Alias(t) => Resolve(g, t)
    case Document(c) => if c == [] then n else Resolve(g, c[0])
    case _ => n
  }

  function ScalarValue(g: Graph, n: Id): string
    requires n < |g|
  {
    var m := Resolve(g, n);
    if g[m].Scalar? then g[m].value else ""
  }

  function Range(n: nat): (ids: set<Id>)
    ensures forall id: nat :: id in ids <==> id < n
  {
    if n == 0 then {} else Range(n - 1) + {n - 1}
  }

  function All(g: Graph): set<Id> {
    Range(|g|)
  }

  lemma VisitMore(g: Graph, visited: set<Id>, m: Id)
    requires m < |g| && m !in visited
    ensures |All(g) - (visited + {m})| < |All(g) - visited|
  {
    assert All(g) - (visited + {m}) == (All(g) - visited) - {m};
  }

  // ----- looking a key up -----

  /** Every value of the key in the mapping and in whatever it merges; `visited` is the path so far. */
  function MappingValues(g: Graph, n: Id, key: string, visited: set<Id>): (values: seq<Id>)
    requires n < |g|
    ensures In(g, values)
    decreases |All(g) - visited|, 2, 0
  {
    var m := Resolve(g, n);
    if !g[m].Mapping? || m in visited then []
    else
      VisitMore(g, visited, m);
      EntryValues(g, g[m].content, key, visited + {m})
  }

  function EntryValues(g: Graph, content: seq<Id>, key: string, visited: set<Id>): (values: seq<Id>)
    requires In(g, content)
    ensures In(g, values)
    decreases |All(g) - visited|, 4, |content|
  {
    if |content| < 2 then []
    else
      (if ScalarValue(g, content[0]) == key then [content[1]] else []) +
      (if ScalarValue(g, content[0]) == "<<" then MergedValues(g, content[1], key, visited) else []) +
      EntryValues(g, content[2..], key, visited)
  }

  function MergedValues(g: Graph, n: Id, key: string, visited: set<Id>): (values: seq<Id>)
    requires n < |g|
    ensures In(g, values)
    decreases |All(g) - visited|, 3, |g|
  {
    var m := Resolve(g, n);
    if g[m].Sequence? then ItemValues(g, g[m].content, key, visited) else MappingValues(g, m, key, visited)
  }

  function ItemValues(g: Graph, items: seq<Id>, key: string, visited: set<Id>): (values: seq<Id>)
    requires In(g, items)
    ensures In(g, values)
    decreases |All(g) - visited|, 2, |items| + 1
  {
    if items == [] then []
    else MappingValues(g, items[0], key, visited) + ItemValues(g, items[1..], key, visited)
  }

  // ----- what it means -----

  /** The mapping has an entry with this key and this value. */
  ghost predicate HasEntry(g: Graph, m: Id, key: string, v: Id) {
    m < |g| && g[m].Mapping? && HoldsEntry(g, g[m].content, key, v)
  }

  ghost predicate HoldsEntry(g: Graph, content: seq<Id>, key: string, v: Id) {
    exists i: nat :: EntryAt(g, content, i, key, v)
  }

  /** Entry `i` of the mapping is the given one. */
  ghost predicate EntryAt(g: Graph, content: seq<Id>, i: nat, key: string, v: Id) {
    2 * i + 1 < |content| && content[2 * i] < |g| && ScalarValue(g, content[2 * i]) == key && content[2 * i + 1] == v
  }

  /** The value of a merge key brings in the mapping, alone or as an item of a sequence. */
  ghost predicate BringsIn(g: Graph, n: Id, m: Id) {
    n < |g| && m < |g| && g[m].Mapping? &&
    (var r := Resolve(g, n);
     if g[r].Sequence? then exists item :: item in g[r].content && item < |g| && Resolve(g, item) == m else r == m)
  }

  ghost predicate Merges(g: Graph, m: Id, m': Id) {
    exists v :: HasEntry(g, m, "<<", v) && BringsIn(g, v, m')
  }

  /** A chain of merges. */
  ghost predicate IsChain(g: Graph, path: seq<Id>)
    decreases |path|
  {
    && path != [] && path[0] < |g| && g[path[0]].Mapping?
    && (|path| == 1 || (Merges(g, path[0], path[1]) && IsChain(g, path[1..])))
  }

  ghost predicate Simple(path: seq<Id>) {
    forall i, j | 0 <= i < j < |path| :: path[i] != path[j]
  }

  ghost predicate Leads(g: Graph, n: Id, path: seq<Id>, key: string, v: Id) {
    n < |g| && IsChain(g, path) && path[0] == Resolve(g, n) && HasEntry(g, path[|path| - 1], key, v)
  }

  /** The key has this value in the node, directly or through any chain of merges, cycles included. */
  ghost predicate ValueOf(g: Graph, n: Id, key: string, v: Id) {
    exists path :: Leads(g, n, path, key, v)
  }

  // ----- every value found is one -----

  lemma EntryShift(g: Graph, content: seq<Id>, key: string, v: Id)
    requires |content| >= 2 && HoldsEntry(g, content[2..], key, v)
    ensures HoldsEntry(g, content, key, v)
  {
    var i: nat :| EntryAt(g, content[2..], i, key, v);
    assert EntryAt(g, content, i + 1, key, v);
  }

  /** Through an entry list, the value is an entry or comes from a merged mapping. */
  ghost predicate ComesFrom(g: Graph, content: seq<Id>, path: seq<Id>, key: string, v: Id) {
    if path == [] then HoldsEntry(g, content, key, v)
    else IsChain(g, path) && HasEntry(g, path[|path| - 1], key, v) &&
         exists n :: HoldsEntry(g, content, "<<", n) && BringsIn(g, n, path[0])
  }

  lemma ComesFromShift(g: Graph, content: seq<Id>, path: seq<Id>, key: string, v: Id)
    requires |content| >= 2 && ComesFrom(g, content[2..], path, key, v)
    ensures ComesFrom(g, content, path, key, v)
  {
    if path == [] {
      EntryShift(g, content, key, v);
    } else {
      var n :| HoldsEntry(g, content[2..], "<<", n) && BringsIn(g, n, path[0]);
      EntryShift(g, content, "<<", n);
    }
  }

  lemma ChainCons(g: Graph, m: Id, path: seq<Id>, key: string, v: Id)
    requires m < |g| && g[m].Mapping? && ComesFrom(g, g[m].content, path, key, v)
    ensures IsChain(g, [m] + path) && HasEntry(g, ([m] + path)[|path|], key, v)
  {
    if path != [] {
      var n :| HoldsEntry(g, g[m].content, "<<", n) && BringsIn(g, n, path[0]);
      assert HasEntry(g, m, "<<", n);
      assert Merges(g, m, path[0]);
      assert ([m] + path)[1..] == path;
    }
  }

  lemma {:induction false} FoundIsValue(g: Graph, n: Id, key: string, visited: set<Id>, v: Id) returns (path: seq<Id>)
    requires n < |g| && v in MappingValues(g, n, key, visited)
    ensures Leads(g, n, path, key, v)
    decreases |All(g) - visited|, 2, 0
  {
    var m := Resolve(g, n);
    VisitMore(g, visited, m);
    var rest := FoundInEntries(g, g[m].content, key, visited + {m}, v);
    ChainCons(g, m, rest, key, v);
    path := [m] + rest;
  }

  lemma {:induction false} FoundInEntries(g: Graph, content: seq<Id>, key: string, visited: set<Id>, v: Id)
    returns (path: seq<Id>)
    requires In(g, content) && v in EntryValues(g, content, key, visited)
    ensures ComesFrom(g, content, path, key, v)
    decreases |All(g) - visited|, 4, |content|
  {
    if ScalarValue(g, content[0]) == key && v == content[1] {
      assert EntryAt(g, content, 0, key, v);
      path := [];
    } else if ScalarValue(g, content[0]) == "<<" && v in MergedValues(g, content[1], key, visited) {
      path := FoundInMerged(g, content[1], key, visited, v);
      assert EntryAt(g, content, 0, "<<", content[1]);
    } else {
      path := FoundInEntries(g, content[2..], key, visited, v);
      ComesFromShift(g, content, path, key, v);
    }
  }

  lemma {:induction false} FoundInMerged(g: Graph, n: Id, key: string, visited: set<Id>, v: Id) returns (path: seq<Id>)
    requires n < |g| && v in MergedValues(g, n, key, visited)
    ensures IsChain(g, path) && HasEntry(g, path[|path| - 1], key, v) && BringsIn(g, n, path[0])
    decreases |All(g) - visited|, 3, |g|
  {
    var m := Resolve(g, n);
    if g[m].Sequence? {
      var item: Id;
      item, path := FoundInItems(g, g[m].content, key, visited, v);
    } else {
      path := FoundIsValue(g, m, key, visited, v);
    }
  }

  lemma {:induction false} FoundInItems(g: Graph, items: seq<Id>, key: string, visited: set<Id>, v: Id)
    returns (item: Id, path: seq<Id>)
    requires In(g, items) && v in ItemValues(g, items, key, visited)
    ensures item in items && Leads(g, item, path, key, v)
    decreases |All(g) - visited|, 2, |items| + 1
  {
    if v in MappingValues(g, items[0], key, visited) {
      item := items[0];
      path := FoundIsValue(g, item, key, visited, v);
    } else {
      item, path := FoundInItems(g, items[1..], key, visited, v);
    }
  }

  // ----- every value is found -----

  lemma {:induction false} EntryIsSeen(g: Graph, content: seq<Id>, key: string, visited: set<Id>, i: nat, v: Id)
    requires In(g, content) && 2 * i + 1 < |content|
    requires || (EntryAt(g, content, i, key, content[2 * i + 1]) && v == content[2 * i + 1])
             || (EntryAt(g, content, i, "<<", content[2 * i + 1]) &&
             v in MergedValues(g, content[2 * i + 1], key, visited))
    ensures v in EntryValues(g, content, key, visited)
    decreases i
  {
    if i > 0 {
      assert content[2..][2 * (i - 1)] == content[2 * i] && content[2..][2 * (i - 1) + 1] == content[2 * i + 1];
      EntryIsSeen(g, content[2..], key, visited, i - 1, v);
    }
  }

  lemma {:induction false} ItemIsSeen(g: Graph, items: seq<Id>, key: string, visited: set<Id>, item: Id, v: Id)
    requires In(g, items) && item in items && v in MappingValues(g, item, key, visited)
    ensures v in ItemValues(g, items, key, visited)
    decreases |items|
  {
    if item != items[0] {
      ItemIsSeen(g, items[1..], key, visited, item, v);
    }
  }

  /** A mapping that a merge brings in is looked up under some node. */
  lemma PickMerged(g: Graph, value: Id, m: Id, key: string, visited: set<Id>) returns (item: Id)
    requires BringsIn(g, value, m)
    ensures item < |g| && Resolve(g, item) == m
    ensures forall v | v in MappingValues(g, item, key, visited) :: v in MergedValues(g, value, key, visited)
  {
    var r := Resolve(g, value);
    if g[r].Sequence? {
      item :| item in g[r].content && item < |g| && Resolve(g, item) == m;
      forall v | v in MappingValues(g, item, key, visited)
        ensures v in MergedValues(g, value, key, visited)
      {
        ItemIsSeen(g, g[r].content, key, visited, item, v);
      }
    } else {
      item := r;
    }
  }

  ghost predicate Avoids(path: seq<Id>, visited: set<Id>) {
    forall i | 0 <= i < |path| :: path[i] !in visited
  }

  lemma TailIsClear(path: seq<Id>, visited: set<Id>)
    requires path != [] && Simple(path) && Avoids(path, visited)
    ensures Simple(path[1..]) && Avoids(path[1..], visited + {path[0]})
  {
  }

  lemma EntryOfMapping(g: Graph, m: Id, key: string, visited: set<Id>, v: Id)
    requires HasEntry(g, m, key, v)
    ensures v in EntryValues(g, g[m].content, key, visited)
  {
    var i: nat :| EntryAt(g, g[m].content, i, key, v);
    EntryIsSeen(g, g[m].content, key, visited, i, v);
  }

  lemma MergedOfMapping(g: Graph, m: Id, key: string, visited: set<Id>, value: Id, v: Id)
    requires HasEntry(g, m, "<<", value) && value < |g| && v in MergedValues(g, value, key, visited)
    ensures v in EntryValues(g, g[m].content, key, visited)
  {
    var i: nat :| EntryAt(g, g[m].content, i, "<<", value);
    EntryIsSeen(g, g[m].content, key, visited, i, v);
  }

  lemma {:induction false} SimpleChainIsSeen(g: Graph, n: Id, key: string, visited: set<Id>, path: seq<Id>, v: Id)
    requires Leads(g, n, path, key, v) && Simple(path) && Avoids(path, visited)
    ensures v in MappingValues(g, n, key, visited)
    decreases |path|
  {
    var m := path[0];
    if |path| == 1 {
      EntryOfMapping(g, m, key, visited + {m}, v);
    } else {
      var value :| HasEntry(g, m, "<<", value) && BringsIn(g, value, path[1]);
      var item := PickMerged(g, value, path[1], key, visited + {m});
      TailLeads(g, n, path, key, v, item);
      TailIsClear(path, visited);
      SimpleChainIsSeen(g, item, key, visited + {m}, path[1..], v);
      MergedOfMapping(g, m, key, visited + {m}, value, v);
    }
  }

  lemma TailLeads(g: Graph, n: Id, path: seq<Id>, key: string, v: Id, item: Id)
    requires Leads(g, n, path, key, v) && |path| > 1 && item < |g| && Resolve(g, item) == path[1]
    ensures Leads(g, item, path[1..], key, v)
  {
  }

  lemma {:induction false} ChainSuffix(g: Graph, path: seq<Id>, j: nat)
    requires IsChain(g, path) && j < |path|
    ensures IsChain(g, path[j..])
    decreases |path|
  {
    if j == 0 {
      assert path[j..] == path;
    } else {
      ChainSuffix(g, path[1..], j - 1);
      assert path[1..][j - 1..] == path[j..];
    }
  }

  function Cut(path: seq<Id>, i: nat, j: nat): seq<Id>
    requires i < j < |path|
  {
    path[..i] + path[j..]
  }

  lemma CutTail(path: seq<Id>, i: nat, j: nat)
    requires 0 < i < j < |path|
    ensures Cut(path, i, j) == [path[0]] + Cut(path[1..], i - 1, j - 1)
  {
  }

  lemma ChainPrefix(g: Graph, m: Id, path: seq<Id>)
    requires IsChain(g, path) && m < |g| && g[m].Mapping? && Merges(g, m, path[0])
    ensures IsChain(g, [m] + path)
  {
    assert ([m] + path)[1..] == path;
  }

  lemma {:induction false} ChainCut(g: Graph, path: seq<Id>, i: nat, j: nat)
    requires IsChain(g, path) && i < j < |path| && path[i] == path[j]
    ensures IsChain(g, Cut(path, i, j)) && Cut(path, i, j)[0] == path[0]
    decreases |path|
  {
    if i == 0 {
      ChainSuffix(g, path, j);
      assert Cut(path, i, j) == path[j..];
    } else {
      ChainCut(g, path[1..], i - 1, j - 1);
      CutTail(path, i, j);
      ChainPrefix(g, path[0], Cut(path[1..], i - 1, j - 1));
    }
  }

  /** Cutting its loops leaves a chain that leads to the same value. */
  lemma {:induction false} WithoutLoops(g: Graph, n: Id, path: seq<Id>, key: string, v: Id) returns (simple: seq<Id>)
    requires Leads(g, n, path, key, v)
    ensures Leads(g, n, simple, key, v) && Simple(simple)
    decreases |path|
  {
    if Simple(path) {
      simple := path;
    } else {
      var i, j :| 0 <= i < j < |path| && path[i] == path[j];
      ChainCut(g, path, i, j);
      assert Cut(path, i, j)[|Cut(path, i, j)| - 1] == path[|path| - 1];
      simple := WithoutLoops(g, n, Cut(path, i, j), key, v);
    }
  }

  /** The traversal ends on every graph, and finds exactly the values that chains of merges lead to. */
  lemma MappingValuesIff(g: Graph, n: Id, key: string, v: Id)
    requires n < |g|
    ensures v in MappingValues(g, n, key, {}) <==> ValueOf(g, n, key, v)
  {
    if v in MappingValues(g, n, key, {}) {
      var path := FoundIsValue(g, n, key, {}, v);
    }
    if ValueOf(g, n, key, v) {
      var path :| Leads(g, n, path, key, v);
      var simple := WithoutLoops(g, n, path, key, v);
      SimpleChainIsSeen(g, n, key, {}, simple, v);
    }
  }
}

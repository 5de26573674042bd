/** Which tests a shard runs. */
module ShardSelection {
  import opened Common
  import opened Shards

  /** The table of slow tests, and the hash that places every other one. */
  datatype Table = Table(weights: map<string, nat>, hash: string -> nat)

  predicate Less(a: string, b: string) {
    b != "" && (a == "" || a[0] < b[0] || (a[0] == b[0] && Less(a[1..], b[1..])))
  }

  /** The listed tests, each once, heaviest first and by name among equals. */
  predicate HeaviestFirst(weights: map<string, nat>, order: seq<string>) {
    && (forall i | 0 <= i < |order| :: order[i] in weights)
    && (forall name | name in weights :: name in order)
    && (forall i, j | 0 <= i < j < |order| ::
          order[i] != order[j] && order[i] in weights && order[j] in weights &&
          (|| weights[order[i]] > weights[order[j]]
           || (weights[order[i]] == weights[order[j]] && Less(order[i], order[j]))))
  }

  function WeightsOf(weights: map<string, nat>, order: seq<string>): (ws: seq<nat>)
    requires forall i | 0 <= i < |order| :: order[i] in weights
    ensures |ws| == |order| && forall i | 0 <= i < |order| :: ws[i] == weights[order[i]]
  {
    seq(|order|, i requires 0 <= i < |order| && order[i] in weights => weights[order[i]])
  }

  lemma OrderDescends(weights: map<string, nat>, order: seq<string>)
    requires HeaviestFirst(weights, order)
    ensures Descending(WeightsOf(weights, order))
  {
  }

  // ----- placing the listed tests -----

  /** The first shard with the least load. */
  method FirstLeast(loads: array<nat>) returns (k: nat)
    requires loads.Length > 0
    ensures k < loads.Length && k == Least(loads[..])
  {
    k := 0;
    var i := 1;
    assert loads[..1] == [loads[0]];
    while i < loads.Length
      invariant 1 <= i <= loads.Length && k < i && k == Least(loads[..i])
    {
      assert loads[..i + 1][..i] == loads[..i];
      if loads[i] < loads[k] {
        k := i;
      }
      i := i + 1;
    }
    assert loads[..i] == loads[..];
  }

  /** Adds a weight to the first least loaded shard. */
  method PlaceOne(loads: array<nat>, weight: nat) returns (shard: nat)
    requires loads.Length > 0
    modifies loads
    ensures shard == Least(old(loads[..]))
    ensures loads[..] == old(loads[..])[shard := old(loads[shard]) + weight]
  {
    shard := FirstLeast(loads);
    loads[shard] := loads[shard] + weight;
  }

  function OwnerMap(order: seq<string>, owners: seq<nat>): map<string, nat>
    requires |order| == |owners|
    decreases |order|
  {
    if order == [] then map[]
    else
      var n := |order| - 1;
      OwnerMap(order[..n], owners[..n])[order[n] := owners[n]]
  }

  /** Where a listed test runs. */
  function ListedOwners(weights: map<string, nat>, order: seq<string>, count: nat): map<string, nat>
    requires count >= 1 && AreListed(weights, order)
  {
    OwnerMap(order, Greedy(WeightsOf(weights, order), count))
  }

  lemma {:induction false} OwnerMapAt(order: seq<string>, owners: seq<nat>, i: nat)
    requires |order| == |owners| && i < |order| && forall i, j | 0 <= i < j < |order| :: order[i] != order[j]
    ensures order[i] in OwnerMap(order, owners) && OwnerMap(order, owners)[order[i]] == owners[i]
    decreases |order|
  {
    var n := |order| - 1;
    if i < n {
      OwnerMapAt(order[..n], owners[..n], i);
    }
  }

  lemma {:induction false} OwnerMapKeys(order: seq<string>, owners: seq<nat>, name: string)
    requires |order| == |owners|
    ensures name in OwnerMap(order, owners) <==> name in order
    decreases |order|
  {
    if order != [] {
      var n := |order| - 1;
      OwnerMapKeys(order[..n], owners[..n], name);
      assert order == order[..n] + [order[n]];
    }
  }

  predicate AreListed(weights: map<string, nat>, order: seq<string>) {
    forall i | 0 <= i < |order| :: order[i] in weights
  }

  function LoadsAfter(weights: map<string, nat>, order: seq<string>, count: nat): (loads: seq<nat>)
    requires count >= 1 && AreListed(weights, order)
    ensures |loads| == count
  {
    Loads(WeightsOf(weights, order), Greedy(WeightsOf(weights, order), count), count)
  }

  lemma GreedySnoc(weights: map<string, nat>, order: seq<string>, name: string, count: nat)
    requires count >= 1 && AreListed(weights, order) && name in weights
    ensures Greedy(WeightsOf(weights, order + [name]), count) ==
            Greedy(WeightsOf(weights, order), count) + [Least(LoadsAfter(weights, order, count))]
  {
    WeightsSnoc(weights, order, name);
    var ws := WeightsOf(weights, order + [name]);
    assert ws[..|ws| - 1] == WeightsOf(weights, order);
  }

  lemma OwnersSnoc(weights: map<string, nat>, order: seq<string>, name: string, count: nat)
    requires count >= 1 && AreListed(weights, order) && name in weights
    ensures ListedOwners(weights, order + [name], count) ==
            ListedOwners(weights, order, count)[name := Least(LoadsAfter(weights, order, count))]
  {
    GreedySnoc(weights, order, name, count);
    OwnerMapSnoc(order, Greedy(WeightsOf(weights, order), count), name, Least(LoadsAfter(weights, order, count)));
  }

  lemma OwnerMapSnoc(order: seq<string>, owners: seq<nat>, name: string, shard: nat)
    requires |order| == |owners|
    ensures OwnerMap(order + [name], owners + [shard]) == OwnerMap(order, owners)[name := shard]
  {
    assert (order + [name])[..|order|] == order && (owners + [shard])[..|order|] == owners;
  }

  lemma WeightsSnoc(weights: map<string, nat>, order: seq<string>, name: string)
    requires AreListed(weights, order) && name in weights
    ensures WeightsOf(weights, order + [name]) == WeightsOf(weights, order) + [weights[name]]
  {
  }

  lemma LoadsStep(front: seq<nat>, w: nat, count: nat)
    requires count >= 1
    ensures var ws, loads := front + [w], Loads(front, Greedy(front, count), count);
            Loads(ws, Greedy(ws, count), count) == loads[Least(loads) := loads[Least(loads)] + w]
  {
    var ws, loads := front + [w], Loads(front, Greedy(front, count), count);
    assert ws[..|ws| - 1] == front;
    var after := Loads(ws, Greedy(ws, count), count);
    forall s: nat | s < count
      ensures after[s] == loads[Least(loads) := loads[Least(loads)] + w][s]
    {
      GreedyStep(ws, count, s);
    }
  }

  lemma LoadsSnoc(weights: map<string, nat>, order: seq<string>, name: string, count: nat)
    requires count >= 1 && AreListed(weights, order) && name in weights
    ensures var loads := LoadsAfter(weights, order, count);
            LoadsAfter(weights, order + [name], count) == loads[Least(loads) := loads[Least(loads)] + weights[name]]
  {
    WeightsSnoc(weights, order, name);
    LoadsStep(WeightsOf(weights, order), weights[name], count);
  }

  lemma {:induction false} NoLoads(weights: map<string, nat>, count: nat)
    requires count >= 1
    ensures LoadsAfter(weights, [], count) == seq(count, _ => 0)
  {
  }

  datatype Placement = Placement(loads: seq<nat>, owners: map<string, nat>)

  function PlaceNext(weights: map<string, nat>, p: Placement, name: string): Placement
    requires p.loads != [] && name in weights
  {
    var shard := Least(p.loads);
    Placement(p.loads[shard := p.loads[shard] + weights[name]], p.owners[name := shard])
  }

  /** The loads and owners after placing the tests in turn. */
  function PlaceAll(weights: map<string, nat>, p: Placement, todo: seq<string>): Placement
    requires p.loads != [] && AreListed(weights, todo)
    decreases |todo|
  {
    if todo == [] then p else PlaceAll(weights, PlaceNext(weights, p, todo[0]), todo[1..])
  }

  function Placed(weights: map<string, nat>, order: seq<string>, count: nat): Placement
    requires count >= 1 && AreListed(weights, order)
  {
    Placement(LoadsAfter(weights, order, count), ListedOwners(weights, order, count))
  }

  lemma PlacedSnoc(weights: map<string, nat>, done: seq<string>, name: string, count: nat)
    requires count >= 1 && AreListed(weights, done) && name in weights
    ensures Placed(weights, done + [name], count) == PlaceNext(weights, Placed(weights, done, count), name)
  {
    OwnersSnoc(weights, done, name, count);
    LoadsSnoc(weights, done, name, count);
  }

  lemma {:induction false} PlaceAllSnoc(weights: map<string, nat>, p: Placement, todo: seq<string>, name: string)
    requires p.loads != [] && AreListed(weights, todo) && name in weights
    ensures PlaceAll(weights, p, todo).loads != []
    ensures PlaceAll(weights, p, todo + [name]) == PlaceNext(weights, PlaceAll(weights, p, todo), name)
    decreases |todo|
  {
    if todo == [] {
      assert [name][1..] == [] && todo + [name] == [name];
    } else {
      PlaceAllSnoc(weights, PlaceNext(weights, p, todo[0]), todo[1..], name);
      assert (todo + [name])[1..] == todo[1..] + [name];
    }
  }

  function NonePlaced(count: nat): (p: Placement)
    ensures |p.loads| == count && (forall s | 0 <= s < count :: p.loads[s] == 0) && p.owners == map[]
  {
    Placement(seq(count, _ => 0), map[])
  }

  lemma {:induction false} PlaceAllIsGreedy(weights: map<string, nat>, order: seq<string>, count: nat)
    requires count >= 1 && AreListed(weights, order)
    ensures PlaceAll(weights, NonePlaced(count), order) == Placed(weights, order, count)
    decreases |order|
  {
    if order == [] {
      NoLoads(weights, count);
    } else {
      var front, name := order[..|order| - 1], order[|order| - 1];
      assert order == front + [name];
      PlaceAllIsGreedy(weights, front, count);
      PlaceAllSnoc(weights, NonePlaced(count), front, name);
      PlacedSnoc(weights, front, name, count);
    }
  }

  /** The owners of the listed tests, one by one. */
  method Place(weights: map<string, nat>, order: seq<string>, count: nat) returns (owners: map<string, nat>)
    requires count >= 1 && AreListed(weights, order)
    ensures owners == ListedOwners(weights, order, count)
  {
    owners := PlaceInTurn(weights, order, count);
    PlaceAllIsGreedy(weights, order, count);
  }

  method PlaceInTurn(weights: map<string, nat>, order: seq<string>, count: nat) returns (owners: map<string, nat>)
    requires count >= 1 && AreListed(weights, order)
    ensures owners == PlaceAll(weights, NonePlaced(count), order).owners
  {
    owners := map[];
    var loads := new nat[count](_ => 0);
    assert loads[..] == NonePlaced(count).loads;
    var todo := order;
    while todo != []
      invariant AreListed(weights, todo)
      invariant PlaceAll(weights, NonePlaced(count), order) == PlaceAll(weights, Placement(loads[..], owners), todo)
      decreases |todo|
    {
      ghost var p := Placement(loads[..], owners);
      var shard := PlaceOne(loads, weights[todo[0]]);
      owners := owners[todo[0] := shard];
      assert Placement(loads[..], owners) == PlaceNext(weights, p, todo[0]);
      todo := todo[1..];
    }
  }

  // ----- choosing a shard's tests -----

  /** Where a test runs: it depends on its name and on the table, not on which other tests exist. */
  function Owner(table: Table, order: seq<string>, count: nat, name: string): nat
    requires count >= 1 && AreListed(table.weights, order)
  {
    var owners := ListedOwners(table.weights, order, count);
    if name in owners then owners[name] else table.hash(name) % count
  }

  function Selected(table: Table, order: seq<string>, count: nat, names: seq<string>, shard: nat): seq<string>
    requires count >= 1 && AreListed(table.weights, order)
    decreases |names|
  {
    if names == [] then []
    else
      var n := |names| - 1;
      Selected(table, order, count, names[..n], shard) +
      if Owner(table, order, count, names[n]) == shard then [names[n]] else []
  }

  datatype Problem = BadShard | TooFewTests | MissingListed | EmptyShard

  /** `names` is the sorted, duplicate-free listing; `shard` and `count` come from the command line. */
  method SelectTests(table: Table, order: seq<string>, names: seq<string>, shard: int, count: int)
    returns (r: Reply<seq<string>, Problem>)
    requires HeaviestFirst(table.weights, order)
    ensures r == Failed(BadShard) <==> count < 1 || shard < 0 || shard >= count
    ensures r == Failed(TooFewTests) <==> 0 <= shard < count && |names| < count
    ensures r == Failed(MissingListed) <==>
            0 <= shard < count <= |names| && exists name :: name in table.weights && name !in names
    ensures (r.Ok? || r == Failed(EmptyShard)) ==> 0 <= shard < count
    ensures r.Ok? ==> r.value != [] && r.value == Selected(table, order, count, names, shard)
    ensures r == Failed(EmptyShard) ==> Selected(table, order, count, names, shard) == []
  {
    if count < 1 || !(0 <= shard < count) {
      return Failed(BadShard);
    }
    if |names| < count {
      return Failed(TooFewTests);
    }
    if exists i | 0 <= i < |order| :: order[i] !in names {
      return Failed(MissingListed);
    }
    var owners := Place(table.weights, order, count);
    var selected, i := [], 0;
    while i < |names|
      invariant 0 <= i <= |names| && selected == Selected(table, order, count, names[..i], shard)
    {
      assert names[..i + 1][..i] == names[..i];
      var owner := if names[i] in owners then owners[names[i]] else table.hash(names[i]) % count;
      if owner == shard {
        selected := selected + [names[i]];
      }
      i := i + 1;
    }
    assert names[..i] == names;
    if selected == [] {
      return Failed(EmptyShard);
    }
    return Ok(selected);
  }

  // ----- the selections together -----

  lemma {:induction false} SelectedIff(table: Table, order: seq<string>, count: nat, names: seq<string>, shard: nat,
                                       name: string)
    requires count >= 1 && AreListed(table.weights, order)
    ensures name in Selected(table, order, count, names, shard) <==>
            name in names && Owner(table, order, count, name) == shard
    decreases |names|
  {
    if names != [] {
      var n := |names| - 1;
      SelectedIff(table, order, count, names[..n], shard, name);
      assert names == names[..n] + [names[n]];
    }
  }

  lemma {:induction false} OwnerMapBelow(order: seq<string>, owners: seq<nat>, count: nat, name: string)
    requires |order| == |owners| && Assigns(owners, count) && name in OwnerMap(order, owners)
    ensures OwnerMap(order, owners)[name] < count
    decreases |order|
  {
    var n := |order| - 1;
    if name != order[n] {
      OwnerMapBelow(order[..n], owners[..n], count, name);
    }
  }

  /** The shards partition every listing: each test is selected by exactly one shard, its owner. */
  lemma SelectionsPartition(table: Table, order: seq<string>, count: nat, names: seq<string>, name: string)
    requires count >= 1 && HeaviestFirst(table.weights, order) && name in names
    ensures Owner(table, order, count, name) < count
    ensures forall s: nat :: name in Selected(table, order, count, names, s) <==> s == Owner(table, order, count, name)
  {
    var shard := Owner(table, order, count, name);
    if name in ListedOwners(table.weights, order, count) {
      OwnerMapBelow(order, Greedy(WeightsOf(table.weights, order), count), count, name);
    }
    forall s: nat
      ensures name in Selected(table, order, count, names, s) <==> s == shard
    {
      SelectedIff(table, order, count, names, s, name);
    }
  }

  /** A listing with more tests, anywhere in it, moves none of those it had. */
  lemma MoreTestsMoveNone(table: Table, order: seq<string>, count: nat, names: seq<string>, more: seq<string>,
                          shard: nat, name: string)
    requires count >= 1 && HeaviestFirst(table.weights, order)
    requires name in names && forall x | x in names :: x in more
    ensures name in Selected(table, order, count, names, shard) <==> name in Selected(table, order, count, more, shard)
  {
    SelectedIff(table, order, count, names, shard, name);
    SelectedIff(table, order, count, more, shard, name);
  }

  /** A listed test runs where the greedy placement put it, so the bounds on the greedy loads are bounds on
      what the shards run. */
  lemma ListedFollowGreedy(table: Table, order: seq<string>, count: nat, i: nat)
    requires count >= 1 && HeaviestFirst(table.weights, order) && i < |order|
    ensures Owner(table, order, count, order[i]) == Greedy(WeightsOf(table.weights, order), count)[i]
    ensures Descending(WeightsOf(table.weights, order))
  {
    OwnerMapAt(order, Greedy(WeightsOf(table.weights, order), count), i);
    OrderDescends(table.weights, order);
  }

  lemma UnlistedAreHashed(table: Table, order: seq<string>, count: nat, name: string)
    requires count >= 1 && HeaviestFirst(table.weights, order) && name !in table.weights
    ensures Owner(table, order, count, name) == table.hash(name) % count
  {
    OwnerMapKeys(order, Greedy(WeightsOf(table.weights, order), count), name);
  }
}

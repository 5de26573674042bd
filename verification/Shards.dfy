/**
  Test sharding: listed slow tests go, heaviest first, to the least loaded shard; all others are hashed.
 */
module Shards {
  // ----- loads -----

  /** The weight that an assignment puts on one shard. */
  function Load(weights: seq<nat>, owners: seq<nat>, shard: nat): nat
    requires |weights| == |owners|
    decreases |owners|
  {
    if owners == [] then 0
    else
      var n := |owners| - 1;
      Load(weights[..n], owners[..n], shard) + if owners[n] == shard then weights[n] else 0
  }

  function Sum(weights: seq<nat>): nat {
    if weights == [] then 0 else Sum(weights[..|weights| - 1]) + weights[|weights| - 1]
  }

  /** The first shard with the least load among those below `count`. */
  function Least(loads: seq<nat>): (k: nat)
    requires loads != []
    ensures k < |loads|
  {
    if |loads| == 1 then 0
    else
      var k := Least(loads[..|loads| - 1]);
      if loads[|loads| - 1] < loads[k] then |loads| - 1 else k
  }

  lemma {:induction false} LeastIsFirst(loads: seq<nat>)
    requires loads != []
    ensures forall s | 0 <= s < |loads| :: loads[Least(loads)] <= loads[s]
    ensures forall s | 0 <= s < Least(loads) :: loads[Least(loads)] < loads[s]
  {
    if |loads| > 1 {
      LeastIsFirst(loads[..|loads| - 1]);
    }
  }

  function Loads(weights: seq<nat>, owners: seq<nat>, count: nat): (loads: seq<nat>)
    requires |weights| == |owners|
    ensures |loads| == count
  {
    seq(count, s requires 0 <= s => Load(weights, owners, s))
  }

  /** Each weight in turn to the least loaded shard. */
  function Greedy(weights: seq<nat>, count: nat): (owners: seq<nat>)
    requires count >= 1
    ensures |owners| == |weights| && Assigns(owners, count)
    decreases |weights|
  {
    if weights == [] then []
    else
      var front := weights[..|weights| - 1];
      var owners := Greedy(front, count);
      owners + [Least(Loads(front, owners, count))]
  }

  predicate Assigns(owners: seq<nat>, count: nat) {
    forall i | 0 <= i < |owners| :: owners[i] < count
  }

  predicate Descending(weights: seq<nat>) {
    forall i, j | 0 <= i < j < |weights| :: weights[i] >= weights[j]
  }

  /** No shard carries more than `makespan`. */
  ghost predicate Within(weights: seq<nat>, owners: seq<nat>, count: nat, makespan: nat)
    requires |weights| == |owners|
  {
    forall s | 0 <= s < count :: Load(weights, owners, s) <= makespan
  }

  // ----- what any assignment must carry -----

  function SumBelow(weights: seq<nat>, owners: seq<nat>, k: nat): nat
    requires |weights| == |owners|
    decreases k
  {
    if k == 0 then 0 else SumBelow(weights, owners, k - 1) + Load(weights, owners, k - 1)
  }

  lemma {:induction false} SumBelowStep(weights: seq<nat>, owners: seq<nat>, k: nat)
    requires |weights| == |owners| && owners != []
    ensures var n := |owners| - 1;
            SumBelow(weights, owners, k) ==
            SumBelow(weights[..n], owners[..n], k) + if owners[n] < k then weights[n] else 0
    decreases k
  {
    if k > 0 {
      SumBelowStep(weights, owners, k - 1);
    }
  }

  /** Every assignment spreads the whole weight. */
  lemma {:induction false} NothingIsLost(weights: seq<nat>, owners: seq<nat>, count: nat)
    requires |weights| == |owners| && Assigns(owners, count)
    ensures SumBelow(weights, owners, count) == Sum(weights)
    decreases |owners|
  {
    if owners == [] {
      NothingToLose(count);
    } else {
      var n := |owners| - 1;
      SumBelowStep(weights, owners, count);
      NothingIsLost(weights[..n], owners[..n], count);
    }
  }

  lemma {:induction false} NothingToLose(k: nat)
    ensures SumBelow([], [], k) == 0
  {
    if k > 0 {
      NothingToLose(k - 1);
    }
  }

  lemma {:induction false} OwnerCarries(weights: seq<nat>, owners: seq<nat>, i: nat)
    requires |weights| == |owners| && i < |owners|
    ensures weights[i] <= Load(weights, owners, owners[i])
    decreases |owners|
  {
    var n := |owners| - 1;
    if i < n {
      OwnerCarries(weights[..n], owners[..n], i);
    }
  }

  lemma {:induction false} OwnerCarriesBoth(weights: seq<nat>, owners: seq<nat>, i: nat, j: nat)
    requires |weights| == |owners| && i < j < |owners| && owners[i] == owners[j]
    ensures weights[i] + weights[j] <= Load(weights, owners, owners[i])
    decreases |owners|
  {
    var n := |owners| - 1;
    if j < n {
      OwnerCarriesBoth(weights[..n], owners[..n], i, j);
    } else {
      OwnerCarries(weights[..n], owners[..n], i);
    }
  }

  lemma {:induction false} OwnerCarriesThree(weights: seq<nat>, owners: seq<nat>, h: nat, i: nat, j: nat)
    requires |weights| == |owners| && h < i < j < |owners| && owners[h] == owners[i] == owners[j]
    ensures weights[h] + weights[i] + weights[j] <= Load(weights, owners, owners[h])
    decreases |owners|
  {
    var n := |owners| - 1;
    if j < n {
      OwnerCarriesThree(weights[..n], owners[..n], h, i, j);
    } else {
      OwnerCarriesBoth(weights[..n], owners[..n], h, i);
    }
  }

  /** The last test on a loaded shard. */
  lemma {:induction false} LastOn(weights: seq<nat>, owners: seq<nat>, shard: nat) returns (k: nat)
    requires |weights| == |owners| && Load(weights, owners, shard) > 0
    ensures k < |owners| && owners[k] == shard
    ensures Load(weights, owners, shard) == Load(weights[..k], owners[..k], shard) + weights[k]
    decreases |owners|
  {
    var n := |owners| - 1;
    if owners[n] == shard {
      k := n;
    } else {
      k := LastOn(weights[..n], owners[..n], shard);
      assert weights[..n][..k] == weights[..k] && owners[..n][..k] == owners[..k];
    }
  }

  lemma {:induction false} LoadGrows(weights: seq<nat>, heavier: seq<nat>, owners: seq<nat>, shard: nat)
    requires |weights| == |heavier| == |owners| && forall i | 0 <= i < |weights| :: weights[i] <= heavier[i]
    ensures Load(weights, owners, shard) <= Load(heavier, owners, shard)
    decreases |owners|
  {
    if owners != [] {
      var n := |owners| - 1;
      LoadGrows(weights[..n], heavier[..n], owners[..n], shard);
    }
  }

  // ----- what the greedy placement achieves -----

  lemma {:induction false} LoadedHasOwner(weights: seq<nat>, owners: seq<nat>, shard: nat)
    requires |weights| == |owners| && Load(weights, owners, shard) > 0
    ensures shard in owners
    decreases |owners|
  {
    var n := |owners| - 1;
    if owners[n] != shard {
      LoadedHasOwner(weights[..n], owners[..n], shard);
    }
  }

  function Ones(n: nat): (ones: seq<nat>)
    ensures |ones| == n && forall i | 0 <= i < n :: ones[i] == 1
  {
    seq(n, _ => 1)
  }

  /** A test counts double if it has its shard to itself. */
  function Marks(owners: seq<nat>): (marks: seq<nat>)
    ensures |marks| == |owners| && forall i | 0 <= i < |marks| :: marks[i] == 1 || marks[i] == 2
    ensures forall i | 0 <= i < |marks| :: marks[i] == 2 <==> Load(Ones(|owners|), owners, owners[i]) == 1
  {
    seq(|owners|, i requires 0 <= i < |owners| => if Load(Ones(|owners|), owners, owners[i]) == 1 then 2 else 1)
  }

  /** A test alone on its shard is all that the shard carries. */
  lemma {:induction false} AloneIsLoad(weights: seq<nat>, owners: seq<nat>, i: nat)
    requires |weights| == |owners| && i < |owners| && Load(Ones(|owners|), owners, owners[i]) == 1
    ensures Load(weights, owners, owners[i]) == weights[i]
    decreases |owners|
  {
    var n := |owners| - 1;
    assert Ones(|owners|)[..n] == Ones(n);
    if i < n {
      OwnerCarries(Ones(n), owners[..n], i);
      AloneIsLoad(weights[..n], owners[..n], i);
    } else {
      NoneIsNoLoad(weights[..n], owners[..n], owners[n]);
    }
  }

  lemma {:induction false} NoneIsNoLoad(weights: seq<nat>, owners: seq<nat>, shard: nat)
    requires |weights| == |owners| && Load(Ones(|owners|), owners, shard) == 0
    ensures Load(weights, owners, shard) == 0
    decreases |owners|
  {
    if owners != [] {
      var n := |owners| - 1;
      assert Ones(|owners|)[..n] == Ones(n);
      NoneIsNoLoad(weights[..n], owners[..n], shard);
    }
  }

  /** Every loaded shard holds two marks. */
  lemma LoadedHoldsTwo(weights: seq<nat>, owners: seq<nat>, shard: nat)
    requires |weights| == |owners| && Load(weights, owners, shard) > 0
    ensures Load(Marks(owners), owners, shard) >= 2
  {
    var ones, marks := Ones(|owners|), Marks(owners);
    LoadedHasOwner(weights, owners, shard);
    var i :| 0 <= i < |owners| && owners[i] == shard;
    OwnerCarries(marks, owners, i);
    OwnerCarries(ones, owners, i);
    LoadGrows(ones, marks, owners, shard);
  }

  /** Three marks on one shard: three tests, or two of which one is marked double. */
  lemma ThreeMarks(marks: seq<nat>, owners: seq<nat>, shard: nat) returns (h: nat, i: nat, j: nat)
    requires |marks| == |owners| && (forall i | 0 <= i < |marks| :: marks[i] == 1 || marks[i] == 2)
    requires Load(marks, owners, shard) >= 3
    ensures h <= i < j < |owners| && owners[h] == owners[i] == owners[j] == shard
    ensures h < i || marks[i] == 2 || marks[j] == 2
  {
    j := LastOn(marks, owners, shard);
    i := LastOn(marks[..j], owners[..j], shard);
    h := i;
    if marks[i] == 1 && marks[j] == 1 {
      assert marks[..j][..i] == marks[..i] && owners[..j][..i] == owners[..i];
      h := LastOn(marks[..i], owners[..i], shard);
    }
  }

  /** If more than a third of the makespan is still to be placed on shards that carry something, and that
      would exceed the makespan, any assignment within it holds at most two marks on a shard. */
  lemma AtMostTwoMarks(weights: seq<nat>, count: nat, least: nat, other: seq<nat>, makespan: nat, shard: nat)
    requires count >= 1 && weights != [] && Descending(weights) && shard < count
    requires |other| == |weights| && Assigns(other, count) && Within(weights, other, count, makespan)
    requires var n := |weights| - 1;
             && 3 * weights[n] > makespan && least + weights[n] > makespan
             && forall s | 0 <= s < count :: least <= Load(weights[..n], Greedy(weights[..n], count), s)
    ensures var n := |weights| - 1; Load(Marks(Greedy(weights[..n], count)) + [1], other, shard) <= 2
  {
    var n := |weights| - 1;
    var front, owners := weights[..n], Greedy(weights[..n], count);
    var marks := Marks(owners) + [1];
    if Load(marks, other, shard) > 2 {
      var h, i, j := ThreeMarks(marks, other, shard);
      assert Load(weights, other, shard) <= makespan;
      OwnerCarriesBoth(weights, other, i, j);
      if h < i {
        OwnerCarriesThree(weights, other, h, i, j);
      } else {
        var k := if marks[i] == 2 then i else j;
        assert k < n && Marks(owners)[k] == 2;
        AloneIsLoad(front, owners, k);
      }
      assert false;
    }
  }

  /** So the next test is at most a third of the makespan, or its shard stays within the makespan. */
  lemma NextIsAtMostAThird(weights: seq<nat>, count: nat, least: nat, other: seq<nat>, makespan: nat)
    requires count >= 1 && weights != [] && Descending(weights) && least > 0
    requires |other| == |weights| && Assigns(other, count) && Within(weights, other, count, makespan)
    requires var n := |weights| - 1;
             forall s | 0 <= s < count :: least <= Load(weights[..n], Greedy(weights[..n], count), s)
    ensures var w := weights[|weights| - 1]; 3 * w <= makespan || least + w <= makespan
  {
    var n := |weights| - 1;
    var front, owners := weights[..n], Greedy(weights[..n], count);
    var placed, marks := Marks(owners), Marks(owners) + [1];
    assert marks[..n] == placed;
    if 3 * weights[n] > makespan && least + weights[n] > makespan {
      forall s | 0 <= s < count
        ensures Load(placed, owners, s) >= 2 && Load(marks, other, s) <= 2
      {
        LoadedHoldsTwo(front, owners, s);
        AtMostTwoMarks(weights, count, least, other, makespan, s);
      }
      NothingIsLost(placed, owners, count);
      LowerBound(placed, owners, count, 2);
      NothingIsLost(marks, other, count);
      UpperBound(marks, other, count, 2);
      assert false;
    }
  }

  lemma {:induction false} PrefixIsWithin(weights: seq<nat>, other: seq<nat>, count: nat, makespan: nat, n: nat)
    requires n <= |weights| == |other| && Within(weights, other, count, makespan)
    ensures Within(weights[..n], other[..n], count, makespan)
    decreases |weights|
  {
    if n == |weights| {
      assert weights[..n] == weights && other[..n] == other;
    } else {
      var last := |weights| - 1;
      forall s | 0 <= s < count
        ensures Load(weights[..last], other[..last], s) <= makespan
      {
        assert Load(weights[..last], other[..last], s) <= Load(weights, other, s);
      }
      PrefixIsWithin(weights[..last], other[..last], count, makespan, n);
      assert weights[..last][..n] == weights[..n] && other[..last][..n] == other[..n];
    }
  }

  /** The least load is at most the average. */
  lemma LeastIsBelowAverage(weights: seq<nat>, count: nat)
    requires count >= 1
    ensures var owners := Greedy(weights, count);
            var least := Least(Loads(weights, owners, count));
            least < count && count * Load(weights, owners, least) <= Sum(weights)
  {
    var owners := Greedy(weights, count);
    var loads := Loads(weights, owners, count);
    var low := Load(weights, owners, Least(loads));
    LeastIsFirst(loads);
    assert forall s | 0 <= s < count :: low <= loads[s] == Load(weights, owners, s);
    NothingIsLost(weights, owners, count);
    LowerBound(weights, owners, count, low);
  }

  lemma {:induction false} LowerBound(weights: seq<nat>, owners: seq<nat>, k: nat, low: nat)
    requires |weights| == |owners| && forall s | 0 <= s < k :: low <= Load(weights, owners, s)
    ensures k * low <= SumBelow(weights, owners, k)
    decreases k
  {
    if k > 0 {
      LowerBound(weights, owners, k - 1, low);
      assert k * low == (k - 1) * low + low;
    }
  }

  /** The load of the shard that takes the last test, once it has it. */
  function LastPlaced(weights: seq<nat>, count: nat): nat
    requires count >= 1 && weights != []
  {
    var front := weights[..|weights| - 1];
    var owners := Greedy(front, count);
    Load(front, owners, Least(Loads(front, owners, count))) + weights[|weights| - 1]
  }

  /** What the shard carried before fits in the average, with room for the last test. */
  lemma RoomForAll(weights: seq<nat>, count: nat, other: seq<nat>, makespan: nat)
    requires count >= 1 && weights != []
    requires |other| == |weights| && Assigns(other, count) && Within(weights, other, count, makespan)
    ensures var w := weights[|weights| - 1];
            w <= LastPlaced(weights, count) && count * (LastPlaced(weights, count) - w) + w <= count * makespan
  {
    LeastIsBelowAverage(weights[..|weights| - 1], count);
    NothingIsLost(weights, other, count);
    UpperBound(weights, other, count, makespan);
  }

  /** The load is within the makespan, or its last part is at most a third of it and the rest leaves room for that
      part in the average. */
  predicate Bounded(count: nat, placed: nat, w: nat, makespan: nat) {
    || placed <= makespan
    || (3 * w <= makespan && w <= placed && count * (placed - w) + w <= count * makespan)
  }

  /** Either the shard stays within the makespan, or the test is at most a third of it and what was there
      before is at most the average. */
  lemma LastPlacement(weights: seq<nat>, count: nat, other: seq<nat>, makespan: nat)
    requires count >= 1 && weights != [] && Descending(weights)
    requires |other| == |weights| && Assigns(other, count) && Within(weights, other, count, makespan)
    ensures Bounded(count, LastPlaced(weights, count), weights[|weights| - 1], makespan)
  {
    var n := |weights| - 1;
    var front, w := weights[..n], weights[n];
    var owners := Greedy(front, count);
    var loads := Loads(front, owners, count);
    var least := Load(front, owners, Least(loads));
    LeastIsFirst(loads);
    if least == 0 {
      OwnerCarries(weights, other, n);
      assert w <= Load(weights, other, other[n]) <= makespan;
    } else {
      assert forall s | 0 <= s < count :: least <= loads[s] == Load(front, owners, s);
      NextIsAtMostAThird(weights, count, least, other, makespan);
      RoomForAll(weights, count, other, makespan);
    }
  }

  lemma {:induction false} UpperBound(weights: seq<nat>, owners: seq<nat>, k: nat, high: nat)
    requires |weights| == |owners| && forall s | 0 <= s < k :: Load(weights, owners, s) <= high
    ensures SumBelow(weights, owners, k) <= k * high
    decreases k
  {
    if k > 0 {
      UpperBound(weights, owners, k - 1, high);
      assert k * high == (k - 1) * high + high;
    }
  }

  lemma MulMono(a: nat, b: nat, c: nat)
    requires b <= c
    ensures a * b <= a * c
  {
    assert a * c == a * b + a * (c - b);
  }

  lemma Arithmetic(count: nat, placed: nat, w: nat, makespan: nat)
    requires count >= 1 && Bounded(count, placed, w, makespan)
    ensures 3 * count * placed <= (4 * count - 1) * makespan
  {
    if placed <= makespan {
      MulMono(3 * count, placed, makespan);
      MulMono(makespan, 3 * count, 4 * count - 1);
    } else {
      MulMono(count - 1, 3 * w, makespan);
      assert 3 * count * placed == 3 * (count * (placed - w) + w) + (count - 1) * (3 * w);
      assert (4 * count - 1) * makespan == 3 * (count * makespan) + (count - 1) * makespan;
    }
  }

  /** The shard takes the last test, and then carries what was placed; or it keeps its load. */
  lemma LastStep(weights: seq<nat>, count: nat, shard: nat)
    requires count >= 1 && weights != []
    ensures var front := weights[..|weights| - 1];
            || Load(weights, Greedy(weights, count), shard) == LastPlaced(weights, count)
            || Load(weights, Greedy(weights, count), shard) == Load(front, Greedy(front, count), shard)
  {
    GreedyStep(weights, count, shard);
  }

  /** A shard's load is what it was when it took its last test. */
  lemma {:induction false} LoadIsPlaced(weights: seq<nat>, count: nat, shard: nat) returns (n: nat)
    requires count >= 1 && shard < count && Load(weights, Greedy(weights, count), shard) > 0
    ensures 0 < n <= |weights| && Load(weights, Greedy(weights, count), shard) == LastPlaced(weights[..n], count)
    decreases |weights|
  {
    LastStep(weights, count, shard);
    if Load(weights, Greedy(weights, count), shard) == LastPlaced(weights, count) {
      n := |weights|;
      assert weights[..n] == weights;
    } else {
      var front := weights[..|weights| - 1];
      n := LoadIsPlaced(front, count, shard);
      assert front[..n] == weights[..n];
    }
  }

  lemma PrefixIsFine(weights: seq<nat>, count: nat, other: seq<nat>, makespan: nat, n: nat)
    requires Descending(weights) && n <= |weights| && |other| == |weights|
    requires Assigns(other, count) && Within(weights, other, count, makespan)
    ensures Descending(weights[..n]) && Assigns(other[..n], count) && Within(weights[..n], other[..n], count, makespan)
  {
    PrefixIsWithin(weights, other, count, makespan, n);
  }

  lemma PrefixPlacement(weights: seq<nat>, count: nat, other: seq<nat>, makespan: nat, n: nat)
    requires count >= 1 && Descending(weights) && 0 < n <= |weights| && |other| == |weights|
    requires Assigns(other, count) && Within(weights, other, count, makespan)
    ensures Bounded(count, LastPlaced(weights[..n], count), weights[n - 1], makespan)
  {
    PrefixIsFine(weights, count, other, makespan, n);
    LastPlacement(weights[..n], count, other[..n], makespan);
  }

  lemma PlacedIsBounded(weights: seq<nat>, count: nat, other: seq<nat>, makespan: nat, shard: nat) returns (w: nat)
    requires count >= 1 && Descending(weights) && shard < count
    requires |other| == |weights| && Assigns(other, count) && Within(weights, other, count, makespan)
    ensures Bounded(count, Load(weights, Greedy(weights, count), shard), w, makespan)
  {
    w := 0;
    if Load(weights, Greedy(weights, count), shard) > 0 {
      var n := LoadIsPlaced(weights, count, shard);
      PrefixPlacement(weights, count, other, makespan, n);
      w := weights[n - 1];
    }
  }

  /** For every table of weights, every number of shards and every other assignment: no shard's listed load
      exceeds 4/3 - 1/(3 count) of that assignment's largest load. */
  lemma GreedyIsBalanced(weights: seq<nat>, count: nat, other: seq<nat>, makespan: nat, shard: nat)
    requires count >= 1 && Descending(weights) && shard < count
    requires |other| == |weights| && Assigns(other, count) && Within(weights, other, count, makespan)
    ensures 3 * count * Load(weights, Greedy(weights, count), shard) <= (4 * count - 1) * makespan
  {
    var w := PlacedIsBounded(weights, count, other, makespan, shard);
    Arithmetic(count, Load(weights, Greedy(weights, count), shard), w, makespan);
  }

  lemma GreedyStep(weights: seq<nat>, count: nat, shard: nat)
    requires count >= 1 && weights != []
    ensures var n := |weights| - 1;
            var owners := Greedy(weights[..n], count);
            var least := Least(Loads(weights[..n], owners, count));
            Load(weights, Greedy(weights, count), shard) ==
            Load(weights[..n], owners, shard) + if shard == least then weights[n] else 0
  {
    var n := |weights| - 1;
    assert Greedy(weights, count)[..n] == Greedy(weights[..n], count);
  }

  /** Hence the weaker bound that list scheduling has in any order. */
  lemma GreedyIsWithinTwice(weights: seq<nat>, count: nat, other: seq<nat>, makespan: nat, shard: nat)
    requires count >= 1 && Descending(weights) && shard < count
    requires |other| == |weights| && Assigns(other, count) && Within(weights, other, count, makespan)
    ensures count * Load(weights, Greedy(weights, count), shard) <= (2 * count - 1) * makespan
  {
    GreedyIsBalanced(weights, count, other, makespan, shard);
    Weaker(count, Load(weights, Greedy(weights, count), shard), makespan);
  }

  lemma Weaker(count: nat, load: nat, makespan: nat)
    requires count >= 1 && 3 * count * load <= (4 * count - 1) * makespan
    ensures count * load <= (2 * count - 1) * makespan
  {
    MulMono(makespan, 4 * count - 1, 3 * (2 * count - 1));
    assert 3 * count * load == 3 * (count * load);
    assert makespan * (3 * (2 * count - 1)) == 3 * ((2 * count - 1) * makespan);
  }

  /** Two shards differ by at most the heaviest test. */
  lemma {:induction false} GreedyIsEven(weights: seq<nat>, count: nat, heaviest: nat, a: nat, b: nat)
    requires count >= 1 && a < count && b < count && forall i | 0 <= i < |weights| :: weights[i] <= heaviest
    ensures var owners := Greedy(weights, count); Load(weights, owners, a) <= Load(weights, owners, b) + heaviest
    decreases |weights|
  {
    if weights != [] {
      var n := |weights| - 1;
      var owners := Greedy(weights[..n], count);
      var loads := Loads(weights[..n], owners, count);
      GreedyIsEven(weights[..n], count, heaviest, a, b);
      GreedyStep(weights, count, a);
      GreedyStep(weights, count, b);
      LeastIsFirst(loads);
      assert loads[Least(loads)] <= loads[b];
    }
  }
}

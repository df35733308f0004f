/** The random-looking but deterministic parts of a dream: the weighted choice
    driven by a hashed nonce, and the pairs a set of walks brings together. */
module Dreaming {
  import opened Collections
  import opened Ranking
  import opened MemoryStore
  import opened PageRank

  const TWO_TO_64: real := 18446744073709551616.0

  /** Sum of the first `n` weights, negatives counted as zero. */
  ghost function Cumulative(weights: seq<real>, n: nat): real
    requires n <= |weights|
  {
    if n == 0 then 0.0 else Cumulative(weights, n - 1) + Clipped(weights[n - 1])
  }

  lemma {:induction false} CumulativeGrows(weights: seq<real>, n: nat)
    requires n <= |weights|
    ensures 0.0 <= Cumulative(weights, n) <= Cumulative(weights, |weights|)
    decreases |weights| - n
  {
    if n < |weights| {
      CumulativeGrows(weights, n + 1);
    }
    NonNegative(weights, n);
  }

  lemma {:induction false} NonNegative(weights: seq<real>, n: nat)
    requires n <= |weights|
    ensures Cumulative(weights, n) >= 0.0
    decreases n
  {
    if n > 0 {
      NonNegative(weights, n - 1);
    }
  }

  lemma TargetInRange(raw: nat, total: real)
    requires raw <= U64_MAX && total > 0.0
    ensures 0.0 <= Times(raw as real / TWO_TO_64, total) < total
  {
    var share := raw as real / TWO_TO_64;
    assert 0.0 <= share < 1.0;
    ShareBounds(share, total);
  }

  lemma ShareBounds(share: real, total: real)
    requires 0.0 <= share < 1.0 && total > 0.0
    ensures 0.0 <= Times(share, total) < total
  {
    assert (1.0 - share) * total > 0.0;
  }

  method SumPositive(weights: seq<real>) returns (total: real)
    ensures total == Cumulative(weights, |weights|)
  {
    total := 0.0;
    for i := 0 to |weights|
      invariant total == Cumulative(weights, i)
    {
      total := total + Clipped(weights[i]);
    }
  }

  /** The entry a nonce picks: the one whose cumulative interval contains it,
      never one without weight; without any weight the remainder of the nonce. */
  ghost predicate Picks(weights: seq<real>, raw: nat, index: nat) {
    && index < |weights|
    && (Cumulative(weights, |weights|) <= 0.0 ==> index == raw % |weights|)
    && (Cumulative(weights, |weights|) > 0.0 ==>
          && weights[index] > 0.0
          && Cumulative(weights, index)
             <= Times(raw as real / TWO_TO_64, Cumulative(weights, |weights|)) < Cumulative(weights, index + 1))
  }

  lemma {:induction false} CumulativeOrder(weights: seq<real>, i: nat, j: nat)
    requires i <= j <= |weights|
    ensures Cumulative(weights, i) <= Cumulative(weights, j)
    decreases j
  {
    if i < j {
      CumulativeOrder(weights, i, j - 1);
    }
  }

  /** A nonce picks one entry. */
  lemma OnePick(weights: seq<real>, raw: nat, i: nat, j: nat)
    requires Picks(weights, raw, i) && Picks(weights, raw, j)
    ensures i == j
  {
    if i < j {
      CumulativeOrder(weights, i + 1, j);
    } else if j < i {
      CumulativeOrder(weights, j + 1, i);
    }
  }

  /** Inverse-distribution sampling. */
  method DeterministicChoice(weights: seq<real>, raw: nat) returns (index: nat)
    requires weights != [] && raw <= U64_MAX
    ensures Picks(weights, raw, index)
  {
    var total := SumPositive(weights);
    if total <= 0.0 {
      return raw % |weights|;
    }
    var target := Times(raw as real / TWO_TO_64, total);
    TargetInRange(raw, total);
    index := 0;
    var cumulative := Clipped(weights[0]);
    while index + 1 < |weights| && target >= cumulative
      invariant index < |weights| && cumulative == Cumulative(weights, index + 1)
      invariant Cumulative(weights, index) <= target
    {
      index := index + 1;
      cumulative := cumulative + Clipped(weights[index]);
    }
    CumulativeGrows(weights, index + 1);
  }

  // ----- Who met whom -----

  /** Each unordered pair of a walk's nodes, smaller identifier first. */
  function UpperPairs(visited: set<NodeId>): Pairs {
    map a, b | a in visited && b in visited && a < b :: (a, b) := 1.0
  }

  ghost function MetOver(walks: seq<set<NodeId>>): Pairs {
    if walks == [] then map[] else PairsAdded(MetOver(walks[..|walks| - 1]), UpperPairs(walks[|walks| - 1]))
  }

  /** In how many of the walks both nodes were visited. */
  ghost function MeetCount(walks: seq<set<NodeId>>, a: NodeId, b: NodeId): nat {
    if walks == [] then 0 else
      MeetCount(walks[..|walks| - 1], a, b) + if a in walks[|walks| - 1] && b in walks[|walks| - 1] then 1 else 0
  }

  /** The accumulated table counts, for each pair in order, the walks it shared. */
  lemma {:induction false} MetOverCounts(walks: seq<set<NodeId>>, a: NodeId, b: NodeId)
    ensures Get(MetOver(walks), (a, b)) == if a < b then MeetCount(walks, a, b) as real else 0.0
    ensures (a, b) in MetOver(walks) ==> a < b && MeetCount(walks, a, b) > 0
    decreases |walks|
  {
    if walks != [] {
      MetOverCounts(walks[..|walks| - 1], a, b);
    }
  }

  lemma MetOverSnoc(walks: seq<set<NodeId>>, visited: set<NodeId>)
    ensures MetOver(walks + [visited]) == PairsAdded(MetOver(walks), UpperPairs(visited))
  {
    assert (walks + [visited])[..|walks|] == walks;
  }

  lemma {:induction false} MetAreVisited(walks: seq<set<NodeId>>, all: set<NodeId>, a: NodeId, b: NodeId)
    requires forall i | 0 <= i < |walks| :: walks[i] <= all
    requires MeetCount(walks, a, b) > 0
    ensures a in all && b in all
    decreases |walks|
  {
    var front, last := walks[..|walks| - 1], walks[|walks| - 1];
    if !(a in last && b in last) {
      MetAreVisited(front, all, a, b);
    }
  }

  // ----- Walks -----

  ghost predicate EdgeAt(graph: Graph, path: seq<NodeId>, i: nat)
    requires i + 1 < |path|
  {
    path[i] in graph && path[i + 1] in graph[path[i]] && graph[path[i]][path[i + 1]] > 0.0
  }

  /** A path along positive edges. */
  ghost predicate IsWalk(graph: Graph, path: seq<NodeId>) {
    path != [] && forall i {:trigger EdgeAt(graph, path, i)} | 0 <= i < |path| - 1 :: EdgeAt(graph, path, i)
  }
}

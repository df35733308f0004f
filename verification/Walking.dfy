/** Where a dream walk goes: each step is picked by softmax weights over the
    positive edges, so a walk is determined by its start. */
module Walking {
  import opened Collections
  import opened Ranking
  import opened MemoryNodes
  import opened MemoryStore
  import opened Dreaming

  /** Active neighbours over a positive edge. */
  function Options(nodes: Nodes, graph: Graph, current: NodeId): set<NodeId> {
    set id | id in RowOf(graph, current) && id in nodes && RowOf(graph, current)[id] > 0.0
  }

  function Most(nodes: Nodes, ids: seq<NodeId>, n: nat): real
    requires n <= |ids|
  {
    if n == 0 then 1.0 else Max(Most(nodes, ids, n - 1), if ids[n - 1] in nodes then nodes[ids[n - 1]].visits else 0.0)
  }

  function Logit(num: Numerics, cfg: Config, node: MemoryNode, weight: real, most: real): real {
    num.Div(weight, Max(cfg.dreamTemperature, 0.000001))
      + cfg.dreamExplorationBonus * (1.0 - num.Div(node.visits, most))
  }

  function Logits(num: Numerics, cfg: Config, nodes: Nodes, graph: Graph, current: NodeId, ids: seq<NodeId>,
                  most: real): seq<real>
  {
    seq(|ids|, i requires 0 <= i < |ids| =>
      if ids[i] in nodes then Logit(num, cfg, nodes[ids[i]], Get(RowOf(graph, current), ids[i]), most) else 0.0)
  }

  function Highest(logits: seq<real>, n: nat): real
    requires n <= |logits|
  {
    if n == 0 then (if logits == [] then 0.0 else logits[0]) else Max(Highest(logits, n - 1), logits[n - 1])
  }

  /** Softmax weights, more for strong edges and for nodes seldom visited. */
  function Softmax(num: Numerics, logits: seq<real>): (r: seq<real>)
    ensures |r| == |logits|
  {
    seq(|logits|, i requires 0 <= i < |logits| => num.exp(logits[i] - Highest(logits, |logits|)))
  }

  function StepWeights(num: Numerics, cfg: Config, nodes: Nodes, graph: Graph, current: NodeId,
                       ids: seq<NodeId>): seq<real>
  {
    Softmax(num, Logits(num, cfg, nodes, graph, current, ids, Most(nodes, ids, |ids|)))
  }

  function Nonce(num: Numerics, cycle: nat, walk: nat, step: Option<nat>, current: Option<NodeId>): nat {
    num.dreamNonce(cycle, walk, step, current) % (U64_MAX + 1)
  }

  // ----- How a step is weighed -----

  /** How many visits a node may have at most, of those listed; at least one. */
  ghost predicate IsMost(nodes: Nodes, ids: seq<NodeId>, most: real) {
    && most >= 1.0
    && (forall i | 0 <= i < |ids| && ids[i] in nodes :: nodes[ids[i]].visits <= most)
    && (most == 1.0 || exists i :: 0 <= i < |ids| && ids[i] in nodes && nodes[ids[i]].visits == most)
  }

  lemma {:induction false} MostExactly(nodes: Nodes, ids: seq<NodeId>, n: nat)
    requires n <= |ids|
    ensures IsMost(nodes, ids[..n], Most(nodes, ids, n))
  {
    if n > 0 {
      MostExactly(nodes, ids, n - 1);
      assert ids[..n] == ids[..n - 1] + [ids[n - 1]];
      var most := Most(nodes, ids, n - 1);
      if most != 1.0 {
        var i :| 0 <= i < |ids[..n - 1]| && ids[..n - 1][i] in nodes && nodes[ids[..n - 1][i]].visits == most;
        assert ids[..n][i] == ids[..n - 1][i];
      }
    }
  }

  ghost predicate IsHighest(logits: seq<real>, highest: real) {
    highest in logits && forall i | 0 <= i < |logits| :: logits[i] <= highest
  }

  lemma {:induction false} HighestExactly(logits: seq<real>, n: nat)
    requires n <= |logits| && logits != []
    ensures Highest(logits, n) in logits && Highest(logits, n) >= logits[0]
    ensures forall i | 0 <= i < n :: logits[i] <= Highest(logits, n)
  {
    if n > 0 {
      HighestExactly(logits, n - 1);
    }
  }

  /** What draws a walk to a node: the edge by its strength against the temperature,
      and the node by how much less it was visited than the most visited. */
  ghost predicate Draws(num: Numerics, cfg: Config, node: MemoryNode, weight: real, most: real, logit: real) {
    var heat := if cfg.dreamTemperature >= 0.000001 then cfg.dreamTemperature else 0.000001;
    most > 0.0 ==> logit == weight / heat + cfg.dreamExplorationBonus * ((most - node.visits) / most)
  }

  lemma Shortfall(x: real, most: real)
    requires most > 0.0
    ensures 1.0 - x / most == (most - x) / most
  {
    var share := x / most;
    assert share * most == x;
    assert (1.0 - share) * most == most - x;
    Divided(most - x, most, 1.0 - share);
  }

  lemma Divided(a: real, b: real, q: real)
    requires b > 0.0 && q * b == a
    ensures a / b == q
  {
    var other := a / b;
    assert (q - other) * b == 0.0;
  }

  lemma LogitExactly(num: Numerics, cfg: Config, node: MemoryNode, weight: real, most: real)
    ensures Draws(num, cfg, node, weight, most, Logit(num, cfg, node, weight, most))
  {
    if most > 0.0 {
      Shortfall(node.visits, most);
    }
  }

  /** Each choice of a step weighs the exponential of how far it falls short of the
      most attractive one. */
  ghost predicate StepWeighed(num: Numerics, cfg: Config, nodes: Nodes, graph: Graph, current: NodeId,
                              ids: seq<NodeId>, most: real, logits: seq<real>, highest: real, weights: seq<real>)
    requires forall i | 0 <= i < |ids| :: ids[i] in nodes
  {
    && IsMost(nodes, ids, most) && IsHighest(logits, highest) && |weights| == |logits| == |ids|
    && (forall i | 0 <= i < |ids| ::
          Draws(num, cfg, nodes[ids[i]], Get(RowOf(graph, current), ids[i]), most, logits[i]))
    && forall i | 0 <= i < |ids| :: weights[i] == num.exp(-(highest - logits[i]))
  }

  lemma StepWeightsExactly(num: Numerics, cfg: Config, nodes: Nodes, graph: Graph, current: NodeId, ids: seq<NodeId>)
    requires ids != [] && forall i | 0 <= i < |ids| :: ids[i] in nodes
    ensures exists most, logits, highest ::
      StepWeighed(num, cfg, nodes, graph, current, ids, most, logits, highest,
                  StepWeights(num, cfg, nodes, graph, current, ids))
  {
    hide IsMost, Logit, Draws, Most, Highest, RowOf;
    var most := Most(nodes, ids, |ids|);
    var logits := Logits(num, cfg, nodes, graph, current, ids, most);
    var highest := Highest(logits, |logits|);
    MostExactly(nodes, ids, |ids|);
    assert ids[..|ids|] == ids;
    HighestExactly(logits, |logits|);
    var weights := StepWeights(num, cfg, nodes, graph, current, ids);
    forall i | 0 <= i < |ids|
      ensures Draws(num, cfg, nodes[ids[i]], Get(RowOf(graph, current), ids[i]), most, logits[i])
      ensures weights[i] == num.exp(-(highest - logits[i]))
    {
      LogitExactly(num, cfg, nodes[ids[i]], Get(RowOf(graph, current), ids[i]), most);
      assert -(highest - logits[i]) == logits[i] - highest;
    }
    assert StepWeighed(num, cfg, nodes, graph, current, ids, most, logits, highest, weights);
  }

  /** A nonce of one machine word is taken as it is. */
  lemma NonceIsRead(num: Numerics, cycle: nat, walk: nat, step: Option<nat>, current: Option<NodeId>)
    ensures Nonce(num, cycle, walk, step, current) <= U64_MAX
    ensures num.dreamNonce(cycle, walk, step, current) <= U64_MAX ==>
      Nonce(num, cycle, walk, step, current) == num.dreamNonce(cycle, walk, step, current)
  {
  }

  /** The walk's `i`th step leads from `a` to `b`. */
  ghost predicate StepsTo(num: Numerics, cfg: Config, nodes: Nodes, graph: Graph, cycle: nat, walk: nat, i: nat,
                          a: NodeId, b: NodeId)
  {
    var ids := Sorted(Options(nodes, graph, a));
    exists k: nat :: k < |ids| && ids[k] == b
      && Picks(StepWeights(num, cfg, nodes, graph, a, ids), Nonce(num, cycle, walk, Some(i), Some(a)), k)
  }

  ghost predicate StepAt(num: Numerics, cfg: Config, nodes: Nodes, graph: Graph, cycle: nat, walk: nat,
                         path: seq<NodeId>, i: nat)
    requires i + 1 < |path|
  {
    StepsTo(num, cfg, nodes, graph, cycle, walk, i, path[i], path[i + 1])
  }

  /** A whole walk: it stops early only where no positive edge leads on. */
  ghost predicate WalkPath(num: Numerics, cfg: Config, nodes: Nodes, graph: Graph, cycle: nat, walk: nat,
                           path: seq<NodeId>)
  {
    && 0 < |path| <= cfg.dreamWalkLength + 1
    && (forall i {:trigger StepAt(num, cfg, nodes, graph, cycle, walk, path, i)} | 0 <= i < |path| - 1 ::
          StepAt(num, cfg, nodes, graph, cycle, walk, path, i))
    && (|path| < cfg.dreamWalkLength + 1 ==> Options(nodes, graph, path[|path| - 1]) == {})
  }

  lemma StepsToOne(num: Numerics, cfg: Config, nodes: Nodes, graph: Graph, cycle: nat, walk: nat, i: nat, a: NodeId,
                   b: NodeId, c: NodeId)
    requires StepsTo(num, cfg, nodes, graph, cycle, walk, i, a, b)
      && StepsTo(num, cfg, nodes, graph, cycle, walk, i, a, c)
    ensures b == c && b in Options(nodes, graph, a)
  {
    hide StepWeights, Picks, Options;
    var ids := Sorted(Options(nodes, graph, a));
    SortedKeys(Options(nodes, graph, a));
    var j: nat :| j < |ids| && ids[j] == b
      && Picks(StepWeights(num, cfg, nodes, graph, a, ids), Nonce(num, cycle, walk, Some(i), Some(a)), j);
    var k: nat :| k < |ids| && ids[k] == c
      && Picks(StepWeights(num, cfg, nodes, graph, a, ids), Nonce(num, cycle, walk, Some(i), Some(a)), k);
    OnePick(StepWeights(num, cfg, nodes, graph, a, ids), Nonce(num, cycle, walk, Some(i), Some(a)), j, k);
    assert b in ToSet(ids);
  }

  /** Two walks of the same number and start in the same store are the same. */
  lemma {:induction false} WalkIsDetermined(num: Numerics, cfg: Config, nodes: Nodes, graph: Graph, cycle: nat,
                                            walk: nat,
                                            p: seq<NodeId>, q: seq<NodeId>)
    requires WalkPath(num, cfg, nodes, graph, cycle, walk, p) && WalkPath(num, cfg, nodes, graph, cycle, walk, q)
    requires p[0] == q[0]
    ensures p == q
  {
    hide StepsTo, Options;
    var n := 1;
    while n < |p| && n < |q|
      invariant 1 <= n <= |p| && n <= |q| && p[..n] == q[..n]
    {
      assert p[n - 1] == p[..n][n - 1] == q[..n][n - 1] == q[n - 1];
      assert StepAt(num, cfg, nodes, graph, cycle, walk, p, n - 1)
        && StepAt(num, cfg, nodes, graph, cycle, walk, q, n - 1);
      StepsToOne(num, cfg, nodes, graph, cycle, walk, n - 1, p[n - 1], p[n], q[n]);
      n := n + 1;
    }
    assert p[n - 1] == p[..n][n - 1] == q[..n][n - 1] == q[n - 1];
    if n < |p| {
      assert StepAt(num, cfg, nodes, graph, cycle, walk, p, n - 1);
      StepsToOne(num, cfg, nodes, graph, cycle, walk, n - 1, p[n - 1], p[n], p[n]);
    } else if n < |q| {
      assert StepAt(num, cfg, nodes, graph, cycle, walk, q, n - 1);
      StepsToOne(num, cfg, nodes, graph, cycle, walk, n - 1, q[n - 1], q[n], q[n]);
    }
  }

  /** A walk runs along positive edges between active nodes, and ends early only
      where none leads on. */
  lemma WalkFollowsEdges(num: Numerics, cfg: Config, nodes: Nodes, graph: Graph, cycle: nat, walk: nat,
                         path: seq<NodeId>)
    requires WalkPath(num, cfg, nodes, graph, cycle, walk, path) && path[0] in nodes
    ensures IsWalk(graph, path) && ToSet(path) <= nodes.Keys
    ensures var last := path[|path| - 1];
      |path| <= cfg.dreamWalkLength ==> forall id | id in nodes && id in RowOf(graph, last) :: graph[last][id] <= 0.0
  {
    hide StepsTo;
    forall i {:trigger EdgeAt(graph, path, i)} | 0 <= i < |path| - 1
      ensures EdgeAt(graph, path, i) && path[i + 1] in nodes
    {
      assert StepAt(num, cfg, nodes, graph, cycle, walk, path, i);
      StepsToOne(num, cfg, nodes, graph, cycle, walk, i, path[i], path[i + 1], path[i + 1]);
    }
    var last := path[|path| - 1];
    forall id | id in nodes && id in RowOf(graph, last) && graph[last][id] > 0.0
      ensures id in Options(nodes, graph, last)
    {
    }
    forall id | id in path
      ensures id in nodes
    {
      var i :| 0 <= i < |path| && path[i] == id;
      if i > 0 {
        var j := i - 1;
        assert EdgeAt(graph, path, j);
      }
    }
  }

  // ----- All walks of a cycle -----

  /** How much each possible start matters. */
  function Seeds(rank: Row, ids: seq<NodeId>): (r: seq<real>)
    ensures |r| == |ids|
  {
    seq(|ids|, i requires 0 <= i < |ids| => Max(Get(rank, ids[i]), 0.0))
  }

  /** The start a nonce picks by importance. */
  ghost predicate StartsAt(ids: seq<NodeId>, seeds: seq<real>, raw: nat, start: NodeId)
    requires |seeds| == |ids|
  {
    exists k: nat :: k < |ids| && Picks(seeds, raw, k) && ids[k] == start
  }

  /** A walk as the dream takes it, start and steps. */
  ghost predicate Taken(num: Numerics, cfg: Config, nodes: Nodes, graph: Graph, cycle: nat, rank: Row, walk: nat,
                        path: seq<NodeId>)
  {
    var ids := Sorted(nodes.Keys);
    && WalkPath(num, cfg, nodes, graph, cycle, walk, path)
    && StartsAt(ids, Seeds(rank, ids), Nonce(num, cycle, walk, None, None), path[0])
  }

  ghost predicate WalkTaken(num: Numerics, cfg: Config, nodes: Nodes, graph: Graph, cycle: nat, rank: Row,
                            paths: seq<seq<NodeId>>, walks: seq<set<NodeId>>, i: nat)
    requires i < |paths| == |walks|
  {
    Taken(num, cfg, nodes, graph, cycle, rank, i, paths[i]) && walks[i] == ToSet(paths[i])
  }

  /** Every walk of a cycle, and the nodes it visited. */
  ghost predicate AllTaken(num: Numerics, cfg: Config, nodes: Nodes, graph: Graph, cycle: nat, rank: Row,
                           paths: seq<seq<NodeId>>, walks: seq<set<NodeId>>)
  {
    && |paths| == |walks|
    && forall i: nat {:trigger WalkTaken(num, cfg, nodes, graph, cycle, rank, paths, walks, i)} | i < |paths| ::
         WalkTaken(num, cfg, nodes, graph, cycle, rank, paths, walks, i)
  }

  lemma NothingTaken(num: Numerics, cfg: Config, nodes: Nodes, graph: Graph, cycle: nat, rank: Row)
    ensures AllTaken(num, cfg, nodes, graph, cycle, rank, [], [])
  {
  }

  lemma OneMoreTaken(num: Numerics, cfg: Config, nodes: Nodes, graph: Graph, cycle: nat, rank: Row,
                     paths: seq<seq<NodeId>>, walks: seq<set<NodeId>>, path: seq<NodeId>)
    requires AllTaken(num, cfg, nodes, graph, cycle, rank, paths, walks)
    requires Taken(num, cfg, nodes, graph, cycle, rank, |paths|, path)
    ensures AllTaken(num, cfg, nodes, graph, cycle, rank, paths + [path], walks + [ToSet(path)])
  {
    hide Taken;
    var longer, more := paths + [path], walks + [ToSet(path)];
    forall i: nat | i < |longer|
      ensures WalkTaken(num, cfg, nodes, graph, cycle, rank, longer, more, i)
    {
      assert i < |paths| ==> WalkTaken(num, cfg, nodes, graph, cycle, rank, paths, walks, i);
    }
  }

  /** A start matters as much as its rank. */
  lemma SeedsExactly(rank: Row, ids: seq<NodeId>)
    requires forall i | 0 <= i < |ids| :: ids[i] in rank && rank[ids[i]] >= 0.0
    ensures forall i | 0 <= i < |ids| :: Seeds(rank, ids)[i] == rank[ids[i]]
  {
  }

  lemma StartsAtOne(ids: seq<NodeId>, seeds: seq<real>, raw: nat, a: NodeId, b: NodeId)
    requires |seeds| == |ids| && StartsAt(ids, seeds, raw, a) && StartsAt(ids, seeds, raw, b)
    ensures a == b
  {
    hide Picks;
    var j: nat :| j < |ids| && Picks(seeds, raw, j) && ids[j] == a;
    var k: nat :| k < |ids| && Picks(seeds, raw, k) && ids[k] == b;
    OnePick(seeds, raw, j, k);
  }

  lemma TakenIsDetermined(num: Numerics, cfg: Config, nodes: Nodes, graph: Graph, cycle: nat, rank: Row, walk: nat,
                          p: seq<NodeId>, q: seq<NodeId>)
    requires Taken(num, cfg, nodes, graph, cycle, rank, walk, p) && Taken(num, cfg, nodes, graph, cycle, rank, walk, q)
    ensures p == q
  {
    hide StartsAt, StepAt;
    var ids := Sorted(nodes.Keys);
    StartsAtOne(ids, Seeds(rank, ids), Nonce(num, cycle, walk, None, None), p[0], q[0]);
    WalkIsDetermined(num, cfg, nodes, graph, cycle, walk, p, q);
  }

  /** Two cycles with the same number and importance in the same store take the same walks. */
  lemma CycleIsDetermined(num: Numerics, cfg: Config, nodes: Nodes, graph: Graph, cycle: nat, rank: Row,
                          paths: seq<seq<NodeId>>, walks: seq<set<NodeId>>, others: seq<seq<NodeId>>,
                            visits: seq<set<NodeId>>)
    requires AllTaken(num, cfg, nodes, graph, cycle, rank, paths, walks)
    requires AllTaken(num, cfg, nodes, graph, cycle, rank, others, visits) && |paths| == |others|
    ensures paths == others && walks == visits
  {
    hide Taken;
    forall i: nat | i < |paths|
      ensures paths[i] == others[i] && walks[i] == visits[i]
    {
      assert WalkTaken(num, cfg, nodes, graph, cycle, rank, paths, walks, i);
      assert WalkTaken(num, cfg, nodes, graph, cycle, rank, others, visits, i);
      TakenIsDetermined(num, cfg, nodes, graph, cycle, rank, i, paths[i], others[i]);
    }
  }
}

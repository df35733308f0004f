/** The store invariant and its preservation by every step, hence by every run.
    It strengthens the closure check of the source with what makes it inductive:
    no self-edges and symmetric, nonnegative coactivations. */
module StoreInvariant {
  import opened Collections
  import opened Ranking
  import opened MemoryNodes
  import opened MemoryStore

  // Each part of the invariant reads only the maps it speaks about.

  ghost predicate RowOk(active: set<NodeId>, x: NodeId, row: Row) {
    forall y | y in row :: y in active && y != x && row[y] >= 0.0
  }

  ghost predicate GraphOk(active: set<NodeId>, graph: Graph) {
    && graph.Keys == active
    && forall x {:trigger RowOk(active, x, graph[x])} | x in graph :: RowOk(active, x, graph[x])
  }

  ghost predicate CountsOk(active: set<NodeId>, visitCounts: Row) {
    && visitCounts.Keys == active
    && forall x | x in visitCounts :: visitCounts[x] >= 0.0
  }

  ghost predicate PairOk(active: set<NodeId>, co: Pairs, a: NodeId, b: NodeId) {
    && a in active && b in active && a != b
    && (b, a) in co
    && co[(b, a)] == Get(co, (a, b)) >= 0.0
  }

  ghost predicate CoactivationsOk(active: set<NodeId>, co: Pairs) {
    forall a, b {:trigger PairOk(active, co, a, b)} | (a, b) in co :: PairOk(active, co, a, b)
  }

  ghost predicate Issued(num: Numerics, counter: nat, id: NodeId) {
    exists e: EventId, c: nat | c < counter :: id == num.nodeHash(e, c)
  }

  ghost predicate IdsOk(num: Numerics, active: set<NodeId>, gone: set<NodeId>, counter: nat) {
    && active !! gone
    && forall id {:trigger Issued(num, counter, id)} | id in active + gone :: Issued(num, counter, id)
  }

  /** A node's children: listed once, absorbed, never itself, including all of
      their own children, and contributing their evidence. */
  ghost predicate FamilyOk(absorbed: Nodes, n: MemoryNode, id: NodeId) {
    && Distinct(n.children)
    && id !in n.children
    && forall c | c in n.children ::
         && c in absorbed
         && ToSet(absorbed[c].children) <= ToSet(n.children)
         && ToSet(absorbed[c].eventIds) <= ToSet(n.eventIds)
  }

  ghost predicate FamiliesOk(nodes: Nodes, absorbed: Nodes) {
    forall id {:trigger FamilyOk(absorbed, nodes[id], id)} | id in nodes :: FamilyOk(absorbed, nodes[id], id)
  }

  ghost predicate NoSharedChild(a: MemoryNode, b: MemoryNode) {
    ToSet(a.children) !! ToSet(b.children)
  }

  ghost predicate FamiliesApart(nodes: Nodes) {
    forall a, b {:trigger NoSharedChild(nodes[a], nodes[b])} | a in nodes && b in nodes && a != b ::
      NoSharedChild(nodes[a], nodes[b])
  }

  ghost predicate HierarchyOk(nodes: Nodes, absorbed: Nodes) {
    FamiliesOk(nodes, absorbed) && FamiliesOk(absorbed, absorbed) && FamiliesApart(nodes)
  }

  ghost predicate NodesOk(dimension: nat, nodes: Nodes) {
    forall id {:trigger NodeOk(nodes[id], dimension)} | id in nodes :: NodeOk(nodes[id], dimension)
  }

  ghost predicate Inv(num: Numerics, cfg: Config, s: Store) {
    && GraphOk(s.nodes.Keys, s.graph)
    && CountsOk(s.nodes.Keys, s.visitCounts)
    && CoactivationsOk(s.nodes.Keys, s.coactivations)
    && IdsOk(num, s.nodes.Keys, s.absorbed.Keys, s.spawnCounter)
    && HierarchyOk(s.nodes, s.absorbed)
    && NodesOk(cfg.dimension, s.nodes) && NodesOk(cfg.dimension, s.absorbed)
  }

  const EMPTY: Store := Store(map[], map[], map[], map[], map[], 0.0, 0.0, 0, 0)

  // ----- Decay -----

  lemma EdgeRateRange(num: Numerics, cfg: Config, elapsed: real)
    requires num.Valid() && cfg.eps > 0.0 && elapsed > 0.0
    ensures 0.0 < EdgeRate(num, cfg, elapsed) <= 1.0
  {
    assert -elapsed / Max(cfg.tauEdge, cfg.eps) <= 0.0;
  }

  lemma DecayKeepsGraph(active: set<NodeId>, graph: Graph, rho: real)
    requires GraphOk(active, graph) && rho > 0.0
    ensures GraphOk(active, GraphScaled(graph, rho))
  {
    forall x | x in graph
      ensures RowOk(active, x, RowScaled(graph[x], rho))
    {
      assert RowOk(active, x, graph[x]);
    }
  }

  lemma DecayKeepsCoactivations(active: set<NodeId>, co: Pairs, rho: real)
    requires CoactivationsOk(active, co) && rho > 0.0
    ensures CoactivationsOk(active, PairsScaled(co, rho))
  {
    forall a, b | (a, b) in co
      ensures PairOk(active, PairsScaled(co, rho), a, b)
    {
      assert PairOk(active, co, a, b);
    }
  }

  lemma EdgeScalingKeeps(num: Numerics, cfg: Config, s: Store, rho: real, now: real)
    requires Inv(num, cfg, s) && rho > 0.0
    ensures Inv(num, cfg, EdgesScaled(s, rho, now))
  {
    DecayKeepsGraph(s.nodes.Keys, s.graph, rho);
    DecayKeepsCoactivations(s.nodes.Keys, s.coactivations, rho);
    assert CountsOk(s.nodes.Keys, RowScaled(s.visitCounts, rho));
  }

  lemma EdgeDecayKeeps(num: Numerics, cfg: Config, s: Store, now: real)
    requires num.Valid() && cfg.eps > 0.0 && Inv(num, cfg, s)
    ensures Inv(num, cfg, EdgesDecayed(num, cfg, s, now))
  {
    hide Inv, EdgeRate;
    var elapsed := Max(now - s.lastEdgeDecay, 0.0);
    if elapsed > 0.0 {
      EdgeRateRange(num, cfg, elapsed);
      EdgeScalingKeeps(num, cfg, s, EdgeRate(num, cfg, elapsed), now);
    }
  }

  // ----- Rewriting nodes in place -----

  /** Nodes rewritten with the same children and no less evidence. */
  ghost predicate SameFamilies(nodes: Nodes, next: Nodes) {
    && next.Keys == nodes.Keys
    && forall id | id in nodes ::
         && next[id].children == nodes[id].children
         && ToSet(nodes[id].eventIds) <= ToSet(next[id].eventIds)
  }

  lemma RewriteKeeps(num: Numerics, cfg: Config, s: Store, next: Nodes)
    requires Inv(num, cfg, s) && SameFamilies(s.nodes, next) && NodesOk(cfg.dimension, next)
    ensures Inv(num, cfg, s.(nodes := next))
  {
    forall id | id in next
      ensures FamilyOk(s.absorbed, next[id], id)
    {
      assert FamilyOk(s.absorbed, s.nodes[id], id);
    }
    forall a, b | a in next && b in next && a != b
      ensures NoSharedChild(next[a], next[b])
    {
      assert NoSharedChild(s.nodes[a], s.nodes[b]);
    }
  }

  lemma ReplaceKeeps(num: Numerics, cfg: Config, s: Store, id: NodeId, node: MemoryNode)
    requires Inv(num, cfg, s) && id in s.nodes && NodeOk(node, cfg.dimension)
    requires node.children == s.nodes[id].children && ToSet(s.nodes[id].eventIds) <= ToSet(node.eventIds)
    ensures Inv(num, cfg, s.(nodes := s.nodes[id := node]))
  {
    RewriteKeeps(num, cfg, s, s.nodes[id := node]);
  }

  lemma DecayedIsOk(num: Numerics, cfg: Config, node: MemoryNode, now: real)
    requires NodeOk(node, cfg.dimension)
    ensures NodeOk(Decayed(num, cfg, node, now), cfg.dimension)
    ensures Decayed(num, cfg, node, now).children == node.children
    ensures Decayed(num, cfg, node, now).eventIds == node.eventIds
  {
  }

  lemma NodeDecayKeeps(num: Numerics, cfg: Config, s: Store, now: real)
    requires Inv(num, cfg, s)
    ensures Inv(num, cfg, NodesDecayed(num, cfg, s, now))
  {
    var next := NodesDecayed(num, cfg, s, now).nodes;
    forall id | id in s.nodes
      ensures NodeOk(next[id], cfg.dimension)
      ensures next[id].children == s.nodes[id].children && next[id].eventIds == s.nodes[id].eventIds
    {
      assert NodeOk(s.nodes[id], cfg.dimension);
      DecayedIsOk(num, cfg, s.nodes[id], now);
    }
    RewriteKeeps(num, cfg, s, next);
  }

  // ----- Counting -----

  lemma CountKeepsCoactivations(active: set<NodeId>, co: Pairs, more: Pairs)
    requires CoactivationsOk(active, co) && CoactivationsOk(active, more)
    ensures CoactivationsOk(active, PairsAdded(co, more))
  {
    var next := PairsAdded(co, more);
    forall a, b | (a, b) in next
      ensures PairOk(active, next, a, b)
    {
      assert (a, b) in co ==> PairOk(active, co, a, b);
      assert (b, a) in co ==> PairOk(active, co, b, a);
      assert (a, b) in more ==> PairOk(active, more, a, b);
      assert (b, a) in more ==> PairOk(active, more, b, a);
    }
  }

  lemma CountKeeps(num: Numerics, cfg: Config, s: Store, visits: Row, meetings: Pairs)
    requires Inv(num, cfg, s) && Countable(s, visits, meetings)
    ensures Inv(num, cfg, Counted(s, visits, meetings))
  {
    assert CoactivationsOk(s.nodes.Keys, meetings) by {
      forall a, b | (a, b) in meetings
        ensures PairOk(s.nodes.Keys, meetings, a, b)
      {
        assert (a, b).0 == a && (a, b).1 == b;
      }
    }
    CountKeepsCoactivations(s.nodes.Keys, s.coactivations, meetings);
    assert Counted(s, visits, meetings).visitCounts.Keys == s.nodes.Keys;
  }

  // ----- Spawning -----

  /** The hash of a counter value never used before names no known node. */
  lemma SpawnIsFresh(num: Numerics, s: Store, event: EventId)
    requires num.Valid() && IdsOk(num, s.nodes.Keys, s.absorbed.Keys, s.spawnCounter)
    ensures num.nodeHash(event, s.spawnCounter) !in s.nodes
    ensures num.nodeHash(event, s.spawnCounter) !in s.absorbed
  {
    var id := num.nodeHash(event, s.spawnCounter);
    assert !Issued(num, s.spawnCounter, id);
  }

  lemma GraphGrows(active: set<NodeId>, graph: Graph, id: NodeId)
    requires GraphOk(active, graph) && id !in active
    ensures GraphOk(active + {id}, graph[id := map[]])
  {
    forall x | x in graph
      ensures RowOk(active + {id}, x, graph[x])
    {
      assert RowOk(active, x, graph[x]);
    }
  }

  lemma CoactivationsGrow(active: set<NodeId>, more: set<NodeId>, co: Pairs)
    requires CoactivationsOk(active, co) && active <= more
    ensures CoactivationsOk(more, co)
  {
    forall a, b | (a, b) in co
      ensures PairOk(more, co, a, b)
    {
      assert PairOk(active, co, a, b);
    }
  }

  lemma IdsGrow(num: Numerics, active: set<NodeId>, gone: set<NodeId>, counter: nat, event: EventId)
    requires IdsOk(num, active, gone, counter) && num.nodeHash(event, counter) !in gone
    ensures IdsOk(num, active + {num.nodeHash(event, counter)}, gone, counter + 1)
  {
    forall x | x in active + {num.nodeHash(event, counter)} + gone
      ensures Issued(num, counter + 1, x)
    {
      if x in active + gone { assert Issued(num, counter, x); }
    }
  }

  lemma SpawnKeeps(num: Numerics, cfg: Config, s: Store, event: EventId, input: Vector, now: real,
                   source: Option<string>, metadata: map<string, string>)
    requires num.Valid() && Inv(num, cfg, s) && |input| == cfg.dimension
    ensures Inv(num, cfg, Spawned(num, cfg, s, event, input, now, source, metadata))
  {
    hide CoactivationsOk, IdsOk, HierarchyOk, NodesOk, NodeOk, Numerics.Valid;
    var id := num.nodeHash(event, s.spawnCounter);
    var t := Spawned(num, cfg, s, event, input, now, source, metadata);
    SpawnIsFresh(num, s, event);
    FreshIsOk(num, cfg, id, event, input, now, source, metadata);
    NewcomerJoins(cfg.dimension, s.nodes, s.absorbed, id, Fresh(num, cfg, id, event, input, now, source, metadata));
    hide Fresh;
    assert t.nodes.Keys == s.nodes.Keys + {id};
    GraphGrows(s.nodes.Keys, s.graph, id);
    CoactivationsGrow(s.nodes.Keys, t.nodes.Keys, s.coactivations);
    IdsGrow(num, s.nodes.Keys, s.absorbed.Keys, s.spawnCounter, event);
  }

  /** A node without children joins the hierarchy. */
  lemma NewcomerJoins(dimension: nat, nodes: Nodes, absorbed: Nodes, id: NodeId, node: MemoryNode)
    requires HierarchyOk(nodes, absorbed) && NodesOk(dimension, nodes)
    requires id !in nodes && id !in absorbed && node.children == [] && NodeOk(node, dimension)
    ensures HierarchyOk(nodes[id := node], absorbed) && NodesOk(dimension, nodes[id := node])
  {
    var t := nodes[id := node];
    assert FamiliesApart(t) by {
      assert ToSet(t[id].children) == {};
    }
    assert FamiliesOk(t, absorbed) by {
      assert FamilyOk(absorbed, t[id], id);
    }
  }

  // ----- Edge refresh -----

  lemma SignificanceNonNegative(policy: Policy, jointCount: real, leftCount: real, rightCount: real, total: real,
                                logRatio: real)
    ensures var s := Significance(policy, jointCount, leftCount, rightCount, total, logRatio);
      s.Some? ==> s.value >= 0.0
  {
    var expected := leftCount * rightCount / Max(total, 0.000000000001);
    var gap := jointCount - expected;
    var square := gap * gap;
    var divisor := Max(expected, 0.000000000001);
    assert square >= 0.0 && square / divisor >= 0.0;
  }

  lemma PpmiNonNegative(num: Numerics, policy: Policy, jointCount: real, leftCount: real, rightCount: real,
                        epsilon: real, total: real)
    requires num.Valid() && total > 0.0
    ensures Ppmi(num, policy, jointCount, leftCount, rightCount, epsilon, total) >= 0.0
  {
    hide JointFrequency, LogRatio, Association, Significance, RaisedBy;
    var joint := JointFrequency(jointCount, epsilon, total);
    var logRatio := LogRatio(num, joint, leftCount, rightCount, total);
    AssociationNonNegative(num, policy, joint, logRatio);
    SignificanceNonNegative(policy, jointCount, leftCount, rightCount, total, logRatio);
    RaisedNonNegative(num, policy, Association(num, policy, joint, logRatio),
                      Significance(policy, jointCount, leftCount, rightCount, total, logRatio));
  }

  lemma RaisedNonNegative(num: Numerics, policy: Policy, base: real, significance: Option<real>)
    requires num.Valid() && base >= 0.0 && (significance.Some? ==> significance.value >= 0.0)
    ensures RaisedBy(num, policy, base, significance) >= 0.0
  {
    if significance.Some? {
      assert num.power(significance.value, policy.significancePower) >= 0.0;
    }
  }

  lemma AssociationNonNegative(num: Numerics, policy: Policy, joint: real, logRatio: real)
    ensures Association(num, policy, joint, logRatio) >= 0.0
  {
  }

  lemma OverlaidOk(active: set<NodeId>, row: Row, weights: Pairs, x: NodeId)
    requires RowOk(active, x, row)
    requires forall p | p in weights :: p.1 in active && p.0 != p.1
    ensures forall y | y in Overlaid(row, weights, x) :: y in active && y != x
  {
    forall y | y in Overlaid(row, weights, x)
      ensures y in active && y != x
    {
      assert (x, y) in weights ==> (x, y).1 in active && (x, y).0 != (x, y).1;
    }
  }

  lemma KeptRowOk(active: set<NodeId>, x: NodeId, row: Row, limit: nat)
    requires forall y | y in row :: y in active && y != x
    ensures RowOk(active, x, Kept(row, limit)) && |Kept(row, limit)| <= limit
  {
    TrimmedExactly(row, limit);
    SubsetSize(Kept(row, limit).Keys, Trimmed(row, limit).Keys);
    assert |Kept(row, limit)| == |Kept(row, limit).Keys|;
  }

  lemma PairEnds(active: set<NodeId>, co: Pairs)
    requires CoactivationsOk(active, co)
    ensures forall p | p in co :: p.0 in active && p.1 in active && p.0 != p.1
  {
    forall p | p in co
      ensures p.0 in active && p.1 in active && p.0 != p.1
    {
      assert PairOk(active, co, p.0, p.1);
    }
  }

  /** Blending in any weights for coactivated pairs and keeping the strongest
      positive entries of each row restores the degree limit everywhere. */
  lemma BlendedGraphOk(active: set<NodeId>, graph: Graph, weights: Pairs, limit: nat)
    requires GraphOk(active, graph)
    requires forall p | p in weights :: p.0 in active && p.1 in active && p.0 != p.1
    ensures GraphOk(active, AllKept(Blended(graph, weights), limit))
    ensures forall x | x in active :: |AllKept(Blended(graph, weights), limit)[x]| <= limit
  {
    hide RowOk, Kept, Overlaid;
    var blended := Blended(graph, weights);
    assert blended.Keys == active;
    forall x | x in active
      ensures RowOk(active, x, Kept(blended[x], limit)) && |Kept(blended[x], limit)| <= limit
    {
      assert RowOk(active, x, graph[x]);
      OverlaidOk(active, graph[x], weights, x);
      KeptRowOk(active, x, blended[x], limit);
    }
  }

  lemma RefreshedGraphOk(num: Numerics, cfg: Config, policy: Policy, s: Store, total: real)
    requires total > 0.0 && GraphOk(s.nodes.Keys, s.graph) && CoactivationsOk(s.nodes.Keys, s.coactivations)
    ensures GraphOk(s.nodes.Keys, RefreshedGraph(num, cfg, policy, s, total))
    ensures forall x | x in s.nodes :: |RefreshedGraph(num, cfg, policy, s, total)[x]| <= cfg.topEdges
  {
    PairEnds(s.nodes.Keys, s.coactivations);
    BlendedGraphOk(s.nodes.Keys, s.graph, Weights(num, cfg, policy, s.graph, s.coactivations, s.visitCounts, total),
                   cfg.topEdges);
  }

  lemma RefreshKeeps(num: Numerics, cfg: Config, s: Store, policy: Policy, total: real)
    requires Inv(num, cfg, s)
    ensures Inv(num, cfg, Refreshed(num, cfg, policy, s, total))
  {
    if total > 0.0 {
      RefreshedGraphOk(num, cfg, policy, s, total);
    }
  }

  // ----- Merging -----

  lemma JoinedRowOk(cfg: Config, s: Store, left: NodeId, right: NodeId)
    requires GraphOk(s.nodes.Keys, s.graph) && left in s.nodes && right in s.nodes && left != right
    ensures RowOk(s.nodes.Keys - {right}, left, JoinedRow(cfg, s.graph, left, right))
    ensures |JoinedRow(cfg, s.graph, left, right)| <= cfg.topEdges
  {
    assert RowOk(s.nodes.Keys, left, s.graph[left]) && RowOk(s.nodes.Keys, right, s.graph[right]);
    var joined := Strongest(RowOf(s.graph, left), RowOf(s.graph, right)) - {left, right};
    TrimmedExactly(joined, cfg.topEdges);
  }

  lemma RedirectedRowOk(s: Store, left: NodeId, right: NodeId, x: NodeId)
    requires GraphOk(s.nodes.Keys, s.graph) && left in s.nodes && right in s.nodes && left != right
    requires x in s.graph && x != left && x != right
    ensures RowOk(s.nodes.Keys - {right}, x, RedirectedRow(s.graph, left, right, x))
    ensures |RedirectedRow(s.graph, left, right, x)| <= |s.graph[x]| + 1
  {
    var row := RedirectedRow(s.graph, left, right, x);
    assert RowOk(s.nodes.Keys, x, s.graph[x]);
    assert |row| == |row.Keys| && |s.graph[x]| == |s.graph[x].Keys|;
    SubsetSize(row.Keys, s.graph[x].Keys + {left});
  }

  /** The survivor respects the degree limit; any other row may exceed it by the
      one redirected edge, until the next refresh. */
  lemma MergeKeepsGraph(cfg: Config, s: Store, left: NodeId, right: NodeId)
    requires GraphOk(s.nodes.Keys, s.graph) && left in s.nodes && right in s.nodes && left != right
    ensures GraphOk(s.nodes.Keys - {right}, MergedGraph(cfg, s.graph, left, right))
    ensures |MergedGraph(cfg, s.graph, left, right)[left]| <= cfg.topEdges
    ensures forall x | x in s.nodes && x != left && x != right ::
              |MergedGraph(cfg, s.graph, left, right)[x]| <= |s.graph[x]| + 1
  {
    var graph := MergedGraph(cfg, s.graph, left, right);
    assert graph.Keys == s.nodes.Keys - {right};
    JoinedRowOk(cfg, s, left, right);
    assert graph[left] == JoinedRow(cfg, s.graph, left, right);
    forall x | x in graph && x != left
      ensures RowOk(s.nodes.Keys - {right}, x, graph[x]) && |graph[x]| <= |s.graph[x]| + 1
    {
      assert graph[x] == RedirectedRow(s.graph, left, right, x);
      RedirectedRowOk(s, left, right, x);
    }
  }

  lemma MergeKeepsCoactivations(s: Store, left: NodeId, right: NodeId)
    requires CoactivationsOk(s.nodes.Keys, s.coactivations) && left in s.nodes && right in s.nodes && left != right
    ensures CoactivationsOk(s.nodes.Keys - {right}, MergedCoactivations(s.nodes.Keys, s.coactivations, left, right))
  {
    var next := MergedCoactivations(s.nodes.Keys, s.coactivations, left, right);
    forall a, b | (a, b) in next
      ensures PairOk(s.nodes.Keys - {right}, next, a, b)
    {
      assert (a, b) in s.coactivations ==> PairOk(s.nodes.Keys, s.coactivations, a, b);
      assert (b, a) in s.coactivations ==> PairOk(s.nodes.Keys, s.coactivations, b, a);
    }
  }

  lemma ConcatDistinct(xs: seq<NodeId>, y: NodeId, zs: seq<NodeId>)
    requires Distinct(xs) && Distinct(zs) && y !in xs && y !in zs
    requires ToSet(xs) !! ToSet(zs)
    ensures Distinct(xs + [y] + zs)
    ensures ToSet(xs + [y] + zs) == ToSet(xs) + {y} + ToSet(zs)
  {
    var all := xs + [y] + zs;
    forall i, j | 0 <= i < j < |all|
      ensures all[i] != all[j]
    {
      assert i < |xs| ==> all[i] in ToSet(xs);
      assert j > |xs| ==> all[j] in ToSet(zs);
    }
    SetOfConcat(xs + [y], zs);
    SetOfConcat(xs, [y]);
    assert ToSet([y]) == {y};
  }

  /** The survivor's new family: its own, the absorbed node, and that node's. */
  lemma MergedFamilyOk(nodes: Nodes, absorbed: Nodes,
                       left: NodeId, right: NodeId, m: MemoryNode)
    requires HierarchyOk(nodes, absorbed) && nodes.Keys !! absorbed.Keys
    requires left in nodes && right in nodes && left != right
    requires m.children == nodes[left].children + [right] + nodes[right].children
    requires ToSet(m.eventIds) == ToSet(nodes[left].eventIds) + ToSet(nodes[right].eventIds)
    ensures FamilyOk(absorbed[right := nodes[right]], m, left)
    ensures ToSet(m.children) == ToSet(nodes[left].children) + {right} + ToSet(nodes[right].children)
  {
    var l, r := nodes[left], nodes[right];
    assert NoSharedChild(nodes[left], nodes[right]);
    assert FamilyOk(absorbed, l, left) && FamilyOk(absorbed, r, right);
    ConcatDistinct(l.children, right, r.children);
    var next := absorbed[right := r];
    forall c | c in m.children
      ensures c in next && ToSet(next[c].children) <= ToSet(m.children)
              && ToSet(next[c].eventIds) <= ToSet(m.eventIds) && c != left
    {
      assert c in ToSet(m.children);
      if c in ToSet(l.children) {
      } else if c == right {
      } else {
        assert c in ToSet(r.children);
      }
    }
  }

  lemma MergeKeepsHierarchy(nodes: Nodes, absorbed: Nodes,
                            left: NodeId, right: NodeId, m: MemoryNode)
    requires HierarchyOk(nodes, absorbed) && nodes.Keys !! absorbed.Keys
    requires left in nodes && right in nodes && left != right
    requires m.children == nodes[left].children + [right] + nodes[right].children
    requires ToSet(m.eventIds) == ToSet(nodes[left].eventIds) + ToSet(nodes[right].eventIds)
    ensures HierarchyOk(nodes[left := m] - {right}, absorbed[right := nodes[right]])
  {
    var next := nodes[left := m] - {right};
    var nextAbsorbed := absorbed[right := nodes[right]];
    MergedFamilyOk(nodes, absorbed, left, right, m);
    forall x, n | x in nodes.Keys + absorbed.Keys && n == (if x in nodes then nodes[x] else absorbed[x])
      ensures FamilyOk(nextAbsorbed, n, x)
    {
      assert FamilyOk(absorbed, n, x);
      forall c | c in n.children
        ensures c in nextAbsorbed && nextAbsorbed[c] == absorbed[c]
      {
        assert c in absorbed && c != right;
      }
    }
    forall a, b | a in next && b in next && a != b
      ensures NoSharedChild(next[a], next[b])
    {
      assert NoSharedChild(nodes[a], nodes[b]);
      assert FamilyOk(absorbed, nodes[a], a) && FamilyOk(absorbed, nodes[b], b);
      if a == left { assert NoSharedChild(nodes[right], nodes[b]); }
      if b == left { assert NoSharedChild(nodes[a], nodes[right]); }
    }
  }

  lemma MergeKeepsIds(num: Numerics, active: set<NodeId>, gone: set<NodeId>, counter: nat, right: NodeId)
    requires IdsOk(num, active, gone, counter) && right in active
    ensures IdsOk(num, active - {right}, gone + {right}, counter)
  {
    assert active - {right} + (gone + {right}) == active + gone;
  }

  lemma MergedMapsOk(cfg: Config, s: Store, left: NodeId, right: NodeId)
    requires GraphOk(s.nodes.Keys, s.graph) && CountsOk(s.nodes.Keys, s.visitCounts)
    requires CoactivationsOk(s.nodes.Keys, s.coactivations)
    requires left in s.nodes && right in s.nodes && left != right
    ensures GraphOk(s.nodes.Keys - {right}, MergedGraph(cfg, s.graph, left, right))
    ensures CoactivationsOk(s.nodes.Keys - {right}, MergedCoactivations(s.nodes.Keys, s.coactivations, left, right))
    ensures CountsOk(s.nodes.Keys - {right},
      s.visitCounts[left := Get(s.visitCounts, left) + Get(s.visitCounts, right)] - {right})
  {
    MergeKeepsGraph(cfg, s, left, right);
    MergeKeepsCoactivations(s, left, right);
  }

  lemma MergedRecordsOk(num: Numerics, dimension: nat, s: Store, left: NodeId, right: NodeId, m: MemoryNode)
    requires IdsOk(num, s.nodes.Keys, s.absorbed.Keys, s.spawnCounter) && HierarchyOk(s.nodes, s.absorbed)
    requires NodesOk(dimension, s.nodes) && NodesOk(dimension, s.absorbed)
    requires left in s.nodes && right in s.nodes && left != right
    requires Combines(s.nodes[left], s.nodes[right], right, m)
    ensures IdsOk(num, s.nodes.Keys - {right}, s.absorbed.Keys + {right}, s.spawnCounter)
    ensures HierarchyOk(s.nodes[left := m] - {right}, s.absorbed[right := s.nodes[right]])
    ensures NodesOk(dimension, s.nodes[left := m] - {right})
    ensures NodesOk(dimension, s.absorbed[right := s.nodes[right]])
  {
    assert NodeOk(s.nodes[left], dimension) && NodeOk(s.nodes[right], dimension);
    CombinedIsOk(s.nodes[left], s.nodes[right], right, m, dimension);
    MergeKeepsHierarchy(s.nodes, s.absorbed, left, right, m);
    MergeKeepsIds(num, s.nodes.Keys, s.absorbed.Keys, s.spawnCounter, right);
    MergeKeepsNodes(dimension, s.nodes, s.absorbed, left, right, m);
  }

  lemma MergeKeepsNodes(dimension: nat, nodes: Nodes, absorbed: Nodes,
                        left: NodeId, right: NodeId, m: MemoryNode)
    requires NodesOk(dimension, nodes) && NodesOk(dimension, absorbed) && NodeOk(m, dimension)
    requires left in nodes && right in nodes
    ensures NodesOk(dimension, nodes[left := m] - {right}) && NodesOk(dimension, absorbed[right := nodes[right]])
  {
    assert NodeOk(nodes[right], dimension);
    forall x | x in nodes
      ensures NodeOk(nodes[x], dimension)
    {
    }
    forall x | x in absorbed
      ensures NodeOk(absorbed[x], dimension)
    {
    }
  }

  // ----- Pruning -----

  lemma PruneKeepsMaps(s: Store, id: NodeId)
    requires GraphOk(s.nodes.Keys, s.graph) && CoactivationsOk(s.nodes.Keys, s.coactivations)
    ensures GraphOk(s.nodes.Keys - {id}, Pruned(s, id).graph)
    ensures CoactivationsOk(s.nodes.Keys - {id}, Pruned(s, id).coactivations)
  {
    var t := Pruned(s, id);
    forall x | x in t.graph
      ensures RowOk(s.nodes.Keys - {id}, x, t.graph[x])
    {
      assert RowOk(s.nodes.Keys, x, s.graph[x]);
    }
    forall a, b | (a, b) in t.coactivations
      ensures PairOk(s.nodes.Keys - {id}, t.coactivations, a, b)
    {
      assert PairOk(s.nodes.Keys, s.coactivations, a, b);
    }
  }

  lemma PruneKeeps(num: Numerics, cfg: Config, s: Store, id: NodeId)
    requires Inv(num, cfg, s) && id in s.nodes
    ensures Inv(num, cfg, Pruned(s, id))
  {
    PruneKeepsMaps(s, id);
    assert Pruned(s, id).nodes.Keys == s.nodes.Keys - {id};
  }

  // ----- Every step, every run -----

  lemma RewritingStepKeeps(num: Numerics, cfg: Config, s: Store, step: Step)
    requires num.Valid() && Inv(num, cfg, s) && Enabled(cfg, s, step)
    requires step.Reinforce? || step.Annotate? || step.Relieve? || step.Stretch?
    ensures Inv(num, cfg, Apply(num, cfg, s, step))
  {
    var node := s.nodes[step.id];
    assert NodeOk(node, cfg.dimension);
    if step.Reinforce? {
      ReinforcedIsOk(num, cfg, node, step.event, step.input, step.similarity, step.now, step.source);
    } else if step.Relieve? {
      RelievedIsOk(num, cfg, node, step.bayesian);
    }
    ReplaceKeeps(num, cfg, s, step.id, Apply(num, cfg, s, step).nodes[step.id]);
  }

  /** Steps that leave every node as it is. */
  predicate LeavesNodes(step: Step) {
    step.Clock? || step.DecayEdges? || step.Count? || step.Refresh? || step.BeginDream?
  }

  lemma NodesLeft(num: Numerics, cfg: Config, s: Store, step: Step)
    requires Enabled(cfg, s, step) && LeavesNodes(step)
    ensures Apply(num, cfg, s, step).nodes == s.nodes
  {
    hide RefreshedGraph, EdgeRate, RowAdded, PairsAdded;
  }

  lemma LeavingStepKeeps(num: Numerics, cfg: Config, s: Store, step: Step)
    requires num.Valid() && cfg.eps > 0.0 && Inv(num, cfg, s) && Enabled(cfg, s, step)
    requires LeavesNodes(step)
    ensures Inv(num, cfg, Apply(num, cfg, s, step))
    ensures Apply(num, cfg, s, step).nodes == s.nodes
  {
    NodesLeft(num, cfg, s, step);
    hide Inv, EdgesDecayed, Counted, Refreshed;
    if step.DecayEdges? {
      EdgeDecayKeeps(num, cfg, s, step.now);
    } else if step.Count? {
      CountKeeps(num, cfg, s, step.visits, step.meetings);
    } else if step.Refresh? {
      RefreshKeeps(num, cfg, s, step.policy, step.total);
    } else {
      ClockKeeps(num, cfg, s, Apply(num, cfg, s, step));
    }
  }

  lemma ClockKeeps(num: Numerics, cfg: Config, s: Store, t: Store)
    requires Inv(num, cfg, s) && t == s.(logicalTime := t.logicalTime, dreamCounter := t.dreamCounter)
    ensures Inv(num, cfg, t)
  {
  }

  lemma MergeKeeps(num: Numerics, cfg: Config, s: Store, left: NodeId, right: NodeId, m: MemoryNode)
    requires Inv(num, cfg, s) && left in s.nodes && right in s.nodes && left != right
    requires Combines(s.nodes[left], s.nodes[right], right, m)
    ensures Inv(num, cfg, MergedStore(cfg, s, left, right, m))
  {
    hide GraphOk, CoactivationsOk, CountsOk, IdsOk, HierarchyOk, NodesOk, MergedGraph, MergedCoactivations, Combines;
    MergedMapsOk(cfg, s, left, right);
    MergedRecordsOk(num, cfg.dimension, s, left, right, m);
    assert MergedStore(cfg, s, left, right, m).nodes.Keys == s.nodes.Keys - {right};
    assert MergedStore(cfg, s, left, right, m).absorbed.Keys == s.absorbed.Keys + {right};
  }

  lemma MergeStepKeeps(num: Numerics, cfg: Config, s: Store, step: Step)
    requires Inv(num, cfg, s) && Enabled(cfg, s, step) && step.Merge?
    ensures Inv(num, cfg, Apply(num, cfg, s, step))
  {
    MergeKeeps(num, cfg, s, step.left, step.right, step.node);
  }

  /** Each elementary change keeps the whole invariant. */
  lemma StepKeepsInvariant(num: Numerics, cfg: Config, s: Store, step: Step)
    requires num.Valid() && cfg.eps > 0.0 && Inv(num, cfg, s) && Enabled(cfg, s, step)
    ensures Inv(num, cfg, Apply(num, cfg, s, step))
  {
    if LeavesNodes(step) {
      LeavingStepKeeps(num, cfg, s, step);
    } else if step.DecayNodes? {
      NodeDecayKeeps(num, cfg, s, step.now);
    } else if step.Spawn? {
      SpawnKeeps(num, cfg, s, step.event, step.input, step.now, step.source, step.metadata);
    } else if step.Merge? {
      MergeStepKeeps(num, cfg, s, step);
    } else if step.Prune? {
      PruneKeeps(num, cfg, s, step.id);
    } else {
      RewritingStepKeeps(num, cfg, s, step);
    }
  }

  /** Hence every sequence of steps from the empty store does. */
  lemma {:induction false} RunKeepsInvariant(num: Numerics, cfg: Config, s: Store, steps: seq<Step>, t: Store)
    requires num.Valid() && cfg.eps > 0.0 && Inv(num, cfg, s) && Reaches(num, cfg, s, steps, t)
    ensures Inv(num, cfg, t)
    decreases |steps|
  {
    if steps != [] {
      StepKeepsInvariant(num, cfg, s, steps[0]);
      RunKeepsInvariant(num, cfg, Apply(num, cfg, s, steps[0]), steps[1..], t);
    }
  }

  lemma EmptyStoreIsOk(num: Numerics, cfg: Config)
    ensures Inv(num, cfg, EMPTY)
  {
  }

  // ----- The closure check, and why it must be strengthened -----

  /** `check_invariants` reports nothing: every row, target, count and pair names active nodes. */
  predicate Closed(active: set<NodeId>, graph: Graph, visitCounts: Row, coactivations: Pairs) {
    && (forall x | x in graph :: x in active && graph[x].Keys <= active)
    && visitCounts.Keys <= active
    && (forall p | p in coactivations :: p.0 in active && p.1 in active)
  }

  /** In every reachable store the check is silent. */
  lemma ReachableIsClosed(num: Numerics, cfg: Config, steps: seq<Step>, s: Store)
    requires num.Valid() && cfg.eps > 0.0 && Reaches(num, cfg, EMPTY, steps, s)
    ensures Closed(s.nodes.Keys, s.graph, s.visitCounts, s.coactivations)
  {
    hide IdsOk, HierarchyOk, NodesOk, Reaches;
    EmptyStoreIsOk(num, cfg);
    RunKeepsInvariant(num, cfg, EMPTY, steps, s);
    forall x | x in s.graph
      ensures s.graph[x].Keys <= s.nodes.Keys
    {
      assert RowOk(s.nodes.Keys, x, s.graph[x]);
    }
    forall p | p in s.coactivations
      ensures p.0 in s.nodes && p.1 in s.nodes
    {
      assert p == (p.0, p.1);
      assert PairOk(s.nodes.Keys, s.coactivations, p.0, p.1);
    }
  }

  /** What the merge loop writes for one neighbour of the absorbed node, whoever it is. */
  function RedirectOne(graph: Graph, left: NodeId, right: NodeId, neighbor: NodeId, weight: real): Graph {
    var raised := graph[left := Strongest(RowOf(graph, left), map[neighbor := weight])];
    raised[neighbor := Strongest(RowOf(raised, neighbor), map[left := Get(RowOf(raised, neighbor), right)])]
  }

  /** The loop over the entries of the absorbed node's `row`, in the listed order. */
  function RedirectAll(graph: Graph, left: NodeId, right: NodeId, row: Row, order: seq<NodeId>): Graph {
    if order == [] then graph
    else
      var last := order[|order| - 1];
      RedirectOne(RedirectAll(graph, left, right, row, order[..|order| - 1]), left, right, last, Get(row, last))
  }

  function Cleared(graph: Graph, right: NodeId): Graph { map x | x in graph :: graph[x] - {right} }

  /** The edge half of a merge as it is carried out on any graph: take the row
      out, redirect its entries, clear the absorbed node, cut the survivor's row. */
  function MergeLoops(cfg: Config, graph: Graph, left: NodeId, right: NodeId, order: seq<NodeId>): Graph {
    var cleared := Cleared(RedirectAll(graph - {right}, left, right, RowOf(graph, right), order), right);
    if left in cleared then cleared[left := Trimmed(cleared[left] - {left}, cfg.topEdges)] else cleared
  }

  /** Some order of the entries the loop visits: all but the survivor. */
  ghost predicate ListsEntries(order: seq<NodeId>, row: Row, left: NodeId) {
    Distinct(order) && ToSet(order) == row.Keys - {left}
  }

  predicate RowsWithin(active: set<NodeId>, graph: Graph) {
    forall x | x in graph :: graph[x].Keys <= active
  }

  lemma RaiseKeys(active: set<NodeId>, graph: Graph, x: NodeId, y: NodeId, weight: real)
    requires RowsWithin(active, graph) && y in active
    ensures RowsWithin(active, graph[x := Strongest(RowOf(graph, x), map[y := weight])])
  {
  }

  lemma RedirectOneKeys(active: set<NodeId>, graph: Graph, left: NodeId, right: NodeId, x: NodeId, weight: real)
    requires RowsWithin(active, graph) && left in active && x in active
    ensures RowsWithin(active, RedirectOne(graph, left, right, x, weight))
    ensures RedirectOne(graph, left, right, x, weight).Keys == graph.Keys + {left, x}
  {
    hide RowsWithin, Strongest;
    var raised := graph[left := Strongest(RowOf(graph, left), map[x := weight])];
    RaiseKeys(active, graph, left, x, weight);
    RaiseKeys(active, raised, x, left, Get(RowOf(raised, x), right));
  }

  /** The rows after the loop, and which rows there are. */
  lemma {:induction false} RedirectAllKeys(active: set<NodeId>, graph: Graph, left: NodeId, right: NodeId, row: Row,
                                           order: seq<NodeId>)
    requires RowsWithin(active, graph) && left in active && ToSet(order) <= active
    ensures RowsWithin(active, RedirectAll(graph, left, right, row, order))
    ensures RedirectAll(graph, left, right, row, order).Keys
      == graph.Keys + ToSet(order) + (if order == [] then {} else {left})
    decreases |order|
  {
    hide RedirectOne, RowsWithin;
    if order == [] {
      assert ToSet(order) == {};
    } else {
      var front, last := order[..|order| - 1], order[|order| - 1];
      assert order == front + [last];
      SetOfConcat(front, [last]);
      assert ToSet([last]) == {last} && last in ToSet(order);
      RedirectAllKeys(active, graph, left, right, row, front);
      RedirectOneKeys(active, RedirectAll(graph, left, right, row, front), left, right, last, Get(row, last));
    }
  }

  lemma MergeLoopsRows(cfg: Config, active: set<NodeId>, graph: Graph, left: NodeId, right: NodeId, order: seq<NodeId>)
    requires RowsWithin(active, graph) && left in active && left != right
      && ListsEntries(order, RowOf(graph, right), left)
    ensures RowsWithin(active - {right}, MergeLoops(cfg, graph, left, right, order))
    ensures MergeLoops(cfg, graph, left, right, order).Keys
      == (graph.Keys - {right}) + ToSet(order) + (if order == [] then {} else {left})
  {
    hide RedirectAll, Trimmed;
    RedirectAllKeys(active, graph - {right}, left, right, RowOf(graph, right), order);
    var cleared := Cleared(RedirectAll(graph - {right}, left, right, RowOf(graph, right), order), right);
    if left in cleared { TrimmedWithin(cleared[left] - {left}, cfg.topEdges); }
  }

  lemma TrimmedWithin(row: Row, limit: nat)
    ensures Trimmed(row, limit).Keys <= row.Keys
  {
  }

  lemma MergedPairsWithin(active: set<NodeId>, co: Pairs, left: NodeId, right: NodeId)
    requires forall p | p in co :: p.0 in active && p.1 in active
    requires left in active
    ensures forall p | p in MergedCoactivations(active, co, left, right) ::
      p.0 in active - {right} && p.1 in active - {right}
  {
    hide PairCount;
  }

  /** A merge keeps what `check_invariants` tests if and only if the absorbed
      node has no edge to itself: redirecting such an edge brings its row back. */
  lemma MergeKeepsClosureExactly(cfg: Config, active: set<NodeId>, graph: Graph, visits: Row, co: Pairs,
                                 left: NodeId, right: NodeId, order: seq<NodeId>)
    requires Closed(active, graph, visits, co) && left in active && right in active && left != right
    requires ListsEntries(order, RowOf(graph, right), left)
    ensures Closed(active - {right}, MergeLoops(cfg, graph, left, right, order),
                   visits[left := Get(visits, left) + Get(visits, right)] - {right},
                   MergedCoactivations(active, co, left, right))
      <==> right !in RowOf(graph, right)
  {
    hide MergeLoops, MergedCoactivations;
    MergeLoopsRows(cfg, active, graph, left, right, order);
    MergedPairsWithin(active, co, left, right);
    assert right in RowOf(graph, right) <==> right in ToSet(order);
    assert ToSet(order) <= active;
    var after := MergeLoops(cfg, graph, left, right, order);
    assert right in RowOf(graph, right) ==> right in after;
  }

  /** Closure alone is therefore not inductive. */
  lemma ClosureIsNotInductive(cfg: Config, left: NodeId, right: NodeId, weight: real) returns (graph: Graph)
    requires left != right
    ensures Closed({left, right}, graph, map[], map[]) && RowOf(graph, right) == map[right := weight]
    ensures !Closed({left}, MergeLoops(cfg, graph, left, right, [right]), map[], map[])
  {
    hide MergeLoops;
    graph := map[left := map[], right := map[right := weight]];
    assert ToSet([right]) == RowOf(graph, right).Keys - {left};
    MergeLoopsRows(cfg, {left, right}, graph, left, right, [right]);
    assert right in MergeLoops(cfg, graph, left, right, [right]);
  }
}

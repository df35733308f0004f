/** What the changes of the whole store mean, told in the entries of its tables
    and apart from how they are computed. */
module StoreLaws {
  import opened Collections
  import opened Ranking
  import opened MemoryNodes
  import opened NodeLaws
  import opened MemoryStore
  import opened StoreTheorems
  import opened DreamOutcomes
  import opened Walking

  // ----- Decay -----

  /** Every entry is the same share of what it was. */
  ghost predicate Faded<K>(row: map<K, real>, rho: real, after: map<K, real>) {
    after.Keys == row.Keys && forall k | k in row :: after[k] == ShareOf(rho, row[k])
  }

  ghost predicate GraphFaded(graph: Graph, rho: real, after: Graph) {
    after.Keys == graph.Keys && forall x | x in graph :: Faded(graph[x], rho, after[x])
  }

  /** Edges, visits and coactivations fade alike; nothing else changes but the date. */
  ghost predicate StoreFaded(s: Store, rho: real, now: real, after: Store) {
    && Faded(s.visitCounts, rho, after.visitCounts) && Faded(s.coactivations, rho, after.coactivations)
    && GraphFaded(s.graph, rho, after.graph)
    && after == s.(visitCounts := after.visitCounts, coactivations := after.coactivations, graph := after.graph,
                   lastEdgeDecay := now)
  }

  lemma ScaledIsFaded(s: Store, rho: real, now: real)
    ensures StoreFaded(s, rho, now, EdgesScaled(s, rho, now))
  {
  }

  lemma EdgesDecayedExactly(num: Numerics, cfg: Config, s: Store, now: real)
    requires cfg.Valid(num.pi)
    ensures now <= s.lastEdgeDecay ==> EdgesDecayed(num, cfg, s, now) == s
    ensures now > s.lastEdgeDecay ==>
      StoreFaded(s, num.exp(Over(s.lastEdgeDecay - now, Max(cfg.tauEdge, cfg.eps))), now,
                 EdgesDecayed(num, cfg, s, now))
  {
    hide EdgesScaled, StoreFaded;
    if now > s.lastEdgeDecay {
      ScaledIsFaded(s, EdgeRate(num, cfg, now - s.lastEdgeDecay), now);
    }
  }

  lemma FadedTwice<K>(row: map<K, real>, first: map<K, real>, second: map<K, real>, whole: map<K, real>,
                      a: real, b: real, c: real)
    requires Faded(row, a, first) && Faded(first, b, second) && Faded(row, c, whole) && c == ShareOf(a, b)
    ensures second == whole
  {
    hide ShareOf;
    forall k | k in row
      ensures second[k] == whole[k]
    {
      Chained(row[k], first[k], second[k], a, b, c);
    }
  }

  lemma StoreFadedTwice(s: Store, first: Store, second: Store, whole: Store, early: real, late: real,
                        a: real, b: real, c: real)
    requires StoreFaded(s, a, early, first) && StoreFaded(first, b, late, second) && StoreFaded(s, c, late, whole)
    requires c == ShareOf(a, b)
    ensures second == whole
  {
    hide Faded, ShareOf;
    FadedTwice(s.visitCounts, first.visitCounts, second.visitCounts, whole.visitCounts, a, b, c);
    FadedTwice(s.coactivations, first.coactivations, second.coactivations, whole.coactivations, a, b, c);
    forall x | x in s.graph
      ensures second.graph[x] == whole.graph[x]
    {
      FadedTwice(s.graph[x], first.graph[x], second.graph[x], whole.graph[x], a, b, c);
    }
  }

  /** Fading in two stages is fading in one, whatever happened to be the stages. */
  lemma EdgesDecayedTwice(num: Numerics, cfg: Config, s: Store, early: real, late: real)
    requires cfg.Valid(num.pi) && early <= late
    requires forall x, y :: SumToProduct(num, x, y)
    ensures EdgesDecayed(num, cfg, EdgesDecayed(num, cfg, s, early), late) == EdgesDecayed(num, cfg, s, late)
  {
    hide EdgesDecayed, SumToProduct, Over;
    var first, whole := EdgesDecayed(num, cfg, s, early), EdgesDecayed(num, cfg, s, late);
    var second := EdgesDecayed(num, cfg, first, late);
    EdgesDecayedExactly(num, cfg, s, early);
    EdgesDecayedExactly(num, cfg, s, late);
    EdgesDecayedExactly(num, cfg, first, late);
    if s.lastEdgeDecay < early < late {
      var tau := Max(cfg.tauEdge, cfg.eps);
      RatesMultiply(num, s.lastEdgeDecay, early, late, tau);
      StoreFadedTwice(s, first, second, whole, early, late, num.exp(Over(s.lastEdgeDecay - early, tau)),
                      num.exp(Over(early - late, tau)), num.exp(Over(s.lastEdgeDecay - late, tau)));
    }
  }

  // ----- What two coactivated nodes learn -----

  /** The measure of association the policy asks for, given the log-ratio of the joint
      frequency to what independent visits would give. */
  ghost predicate Associates(num: Numerics, policy: Policy, joint: real, ratio: real, base: real) {
    match policy.pmiVariant
    case Positive => (ratio > 0.0 ==> base == ratio) && (ratio <= 0.0 ==> base == 0.0)
    case Shifted =>
      && (ratio > policy.pmiShift ==> base + policy.pmiShift == ratio) && (ratio <= policy.pmiShift ==> base == 0.0)
    case Normalized =>
      var surprise := -num.ln(AtLeastTiny(joint));
      (ratio > 0.0 ==> base * AtLeastTiny(surprise) == ratio) && (ratio <= 0.0 ==> base == 0.0)
  }

  const TINY: real := 0.000000000001

  ghost function AtLeastTiny(x: real): real { if x < TINY then TINY else x }

  /** How strongly the counts speak against independence. */
  ghost function Statistic(policy: Policy, count: real, left: real, right: real, total: real, ratio: real): real {
    match policy.pmiSignificance
    case Plain => 0.0
    case G2 => if count * ratio > 0.0 then count * ratio + count * ratio else 0.0
    case ChiSquared =>
      var expected := Over(left * right, AtLeastTiny(total));
      Over((count - expected) * (count - expected), AtLeastTiny(expected))
  }

  /** The association, raised by its significance when the policy weighs it. */
  ghost predicate Informs(num: Numerics, policy: Policy, count: real, left: real, right: real, epsilon: real,
                          total: real, weight: real)
  {
    var joint := Over(count + epsilon, total);
    var ratio := num.ln(Over(AtLeastTiny(joint), AtLeastTiny(Over(left, total) * Over(right, total))));
    exists base ::
      && Associates(num, policy, joint, ratio, base)
      && (policy.pmiSignificance.Plain? ==> weight == base)
      && (!policy.pmiSignificance.Plain? ==>
            weight - base == base * num.power(Statistic(policy, count, left, right, total, ratio),
                                              policy.significancePower))
  }

  lemma AssociationExactly(num: Numerics, policy: Policy, joint: real, ratio: real)
    ensures Associates(num, policy, joint, ratio, Association(num, policy, joint, ratio))
  {
    var surprise := AtLeastTiny(-num.ln(AtLeastTiny(joint)));
    assert ratio / surprise * surprise == ratio;
    assert ratio > 0.0 ==> ratio / surprise > 0.0;
    assert ratio <= 0.0 ==> ratio / surprise <= 0.0;
  }

  lemma SignificanceExactly(policy: Policy, count: real, left: real, right: real, total: real, ratio: real)
    ensures var s := Significance(policy, count, left, right, total, ratio);
      && (s.None? <==> policy.pmiSignificance.Plain?)
      && (s.Some? ==> s.value == Statistic(policy, count, left, right, total, ratio))
  {
    assert 2.0 * count * ratio == count * ratio + count * ratio;
  }

  lemma Raised(base: real, factor: real)
    ensures base * (1.0 + factor) - base == base * factor
  {
  }

  lemma FrequenciesExactly(count: real, left: real, right: real, epsilon: real, total: real)
    requires total > 0.0
    ensures JointFrequency(count, epsilon, total) == Over(count + epsilon, total)
    ensures Independent(left, right, total) == Over(left, total) * Over(right, total)
  {
  }

  lemma LogRatioExactly(num: Numerics, joint: real, left: real, right: real, total: real)
    requires total > 0.0
    ensures LogRatio(num, joint, left, right, total)
      == num.ln(Over(AtLeastTiny(joint), AtLeastTiny(Independent(left, right, total))))
  {
    hide Independent;
  }

  lemma PpmiExactly(num: Numerics, policy: Policy, count: real, left: real, right: real, epsilon: real, total: real)
    requires total > 0.0
    ensures Informs(num, policy, count, left, right, epsilon, total,
                    Ppmi(num, policy, count, left, right, epsilon, total))
  {
    hide JointFrequency, Independent, LogRatio, Association, Associates, Significance, Statistic, Over, AtLeastTiny;
    var joint := Over(count + epsilon, total);
    var ratio := num.ln(Over(AtLeastTiny(joint), AtLeastTiny(Over(left, total) * Over(right, total))));
    FrequenciesExactly(count, left, right, epsilon, total);
    LogRatioExactly(num, joint, left, right, total);
    AssociationExactly(num, policy, joint, ratio);
    SignificanceExactly(policy, count, left, right, total, ratio);
    Raised(Association(num, policy, joint, ratio),
           num.power(Statistic(policy, count, left, right, total, ratio), policy.significancePower));
  }

  /** What a pair's counts tell, smoothed: the visits by as much as the count. */
  ghost predicate Tells(num: Numerics, cfg: Config, policy: Policy, count: real, left: real, right: real, total: real,
                        told: real)
  {
    Informs(num, policy, count, left + cfg.pmiEpsilon, right + cfg.pmiEpsilon, cfg.pmiEpsilon, total, told)
  }

  /** An edge moves towards what the pair tells, by the learning rate. */
  ghost predicate MovesBy(num: Numerics, cfg: Config, policy: Policy, previous: real, count: real, left: real,
                          right: real, total: real, weight: real)
  {
    exists told :: Tells(num, cfg, policy, count, left, right, total, told)
      && weight - previous == cfg.pmiLearningRate * (told - previous)
  }

  lemma LearnedMoves(num: Numerics, cfg: Config, policy: Policy, previous: real, count: real, left: real, right: real,
                     total: real)
    requires total > 0.0
    ensures MovesBy(num, cfg, policy, previous, count, left, right, total,
                    Learned(num, cfg, policy, previous, count, left, right, total))
  {
    hide Ppmi, Informs;
    var told := Ppmi(num, policy, count, left + cfg.pmiEpsilon, right + cfg.pmiEpsilon, cfg.pmiEpsilon, total);
    PpmiExactly(num, policy, count, left + cfg.pmiEpsilon, right + cfg.pmiEpsilon, cfg.pmiEpsilon, total);
    Towards(cfg.pmiLearningRate, previous, told);
    assert Tells(num, cfg, policy, count, left, right, total, told);
  }

  lemma Towards(rate: real, from: real, goal: real)
    ensures (1.0 - rate) * from + rate * goal - from == rate * (goal - from)
  {
  }

  // ----- The refreshed graph -----

  /** An edge's weight before the row is cut: learnt where the pair was coactivated,
      as before elsewhere. */
  ghost predicate Blends(num: Numerics, cfg: Config, policy: Policy, s: Store, total: real, x: NodeId, after: Row) {
    && (forall y :: y in after <==> y in RowOf(s.graph, x) || (x, y) in s.coactivations)
    && forall y | y in after ::
         if (x, y) in s.coactivations
         then MovesBy(num, cfg, policy, Get(RowOf(s.graph, x), y), s.coactivations[(x, y)], Get(s.visitCounts, x),
                      Get(s.visitCounts, y), total, after[y])
         else after[y] == s.graph[x][y]
  }

  /** Of a blended row, the positive entries that fewer than the limit surpass. */
  ghost predicate CutTo(limit: nat, row: Row, after: Row) {
    && (forall y :: y in after <==> y in row && row[y] > 0.0 && |Ahead(row, y)| < limit)
    && forall y | y in after :: after[y] == row[y]
  }

  /** A refresh rewrites every node's row that had an edge or a coactivation, and
      each row is the blended one, cut. */
  ghost predicate GraphLearns(num: Numerics, cfg: Config, policy: Policy, s: Store, total: real, after: Graph) {
    && (forall x :: x in after <==> x in s.graph || exists y :: (x, y) in s.coactivations)
    && forall x | x in after :: exists row ::
      Blends(num, cfg, policy, s, total, x, row) && CutTo(cfg.topEdges, row, after[x])
  }

  lemma OverlaidBlends(num: Numerics, cfg: Config, policy: Policy, s: Store, total: real, x: NodeId)
    requires total > 0.0
    ensures Blends(num, cfg, policy, s, total, x,
      Overlaid(RowOf(s.graph, x), Weights(num, cfg, policy, s.graph, s.coactivations, s.visitCounts, total), x))
  {
    hide Learned, MovesBy;
    var weights := Weights(num, cfg, policy, s.graph, s.coactivations, s.visitCounts, total);
    var row := Overlaid(RowOf(s.graph, x), weights, x);
    forall y
      ensures y in row <==> y in RowOf(s.graph, x) || (x, y) in s.coactivations
    {
      assert (x, y) in weights ==> (x, y).0 == x && (x, y).1 == y;
    }
    forall y | y in row && (x, y) in s.coactivations
      ensures MovesBy(num, cfg, policy, Get(RowOf(s.graph, x), y), s.coactivations[(x, y)], Get(s.visitCounts, x),
                      Get(s.visitCounts, y), total, row[y])
    {
      LearnedMoves(num, cfg, policy, Get(RowOf(s.graph, x), y), s.coactivations[(x, y)], Get(s.visitCounts, x),
                   Get(s.visitCounts, y), total);
    }
  }

  lemma KeptIsCut(row: Row, limit: nat)
    ensures CutTo(limit, row, Kept(row, limit))
  {
    hide Ahead, Trimmed;
    TrimmedExactly(row, limit);
  }

  lemma RefreshedExactly(num: Numerics, cfg: Config, policy: Policy, s: Store, total: real)
    ensures total <= 0.0 ==> Refreshed(num, cfg, policy, s, total) == s
    ensures total > 0.0 ==> var t := Refreshed(num, cfg, policy, s, total);
      GraphLearns(num, cfg, policy, s, total, t.graph) && t == s.(graph := t.graph)
  {
    hide Overlaid, Kept, Blends, CutTo, Weights;
    if total > 0.0 {
      var weights := Weights(num, cfg, policy, s.graph, s.coactivations, s.visitCounts, total);
      var blended := Blended(s.graph, weights);
      var graph := RefreshedGraph(num, cfg, policy, s, total);
      WeightedPairs(num, cfg, policy, s, total);
      forall x
        ensures x in graph <==> x in s.graph || exists y :: (x, y) in s.coactivations
      {
        if p :| p in s.coactivations && p.0 == x {
          assert p == (x, p.1);
        }
        if y :| (x, y) in s.coactivations {
          assert (x, y).0 == x;
        }
      }
      forall x | x in graph
        ensures exists row :: Blends(num, cfg, policy, s, total, x, row) && CutTo(cfg.topEdges, row, graph[x])
      {
        OverlaidBlends(num, cfg, policy, s, total, x);
        KeptIsCut(blended[x], cfg.topEdges);
      }
    }
  }

  lemma WeightedPairs(num: Numerics, cfg: Config, policy: Policy, s: Store, total: real)
    requires total > 0.0
    ensures Weights(num, cfg, policy, s.graph, s.coactivations, s.visitCounts, total).Keys == s.coactivations.Keys
  {
  }

  // ----- Pruning -----

  /** Light, and unseen for long enough. */
  ghost predicate Faint(cfg: Config, node: MemoryNode, now: real) {
    node.weight < cfg.pruneWeightThreshold && (now - node.lastSeen >= cfg.minimumPruneAge || cfg.minimumPruneAge == 0.0)
  }

  /** Still named after the prune: the nodes that were kept, and what never was a node. */
  predicate Named(s: Store, kept: Nodes, id: NodeId) { id in s.nodes ==> id in kept }

  /** A prune decays the nodes and lets the faint and unprotected go, with all that names them. */
  ghost predicate PrunesTo(num: Numerics, cfg: Config, s: Store, now: real, protected: set<NodeId>, after: Store) {
    && (exists decayed ::
          EachDecays(num, cfg, s.nodes, now, decayed) && Keeps(cfg, decayed, now, protected, after.nodes))
    && TablesWithin(s, after)
  }

  ghost predicate TablesWithin(s: Store, after: Store) {
    && after == s.(nodes := after.nodes, graph := after.graph, visitCounts := after.visitCounts,
                   coactivations := after.coactivations)
    && GraphWithin(s, after)
    && after.visitCounts == (map id | id in s.visitCounts && Named(s, after.nodes, id) :: s.visitCounts[id])
    && after.coactivations == (map p | p in s.coactivations && Named(s, after.nodes, p.0) && Named(s, after.nodes, p.1)
                                 :: s.coactivations[p])
  }

  ghost predicate EachDecays(num: Numerics, cfg: Config, nodes: Nodes, now: real, decayed: Nodes) {
    decayed.Keys == nodes.Keys && forall id | id in nodes :: DecaysTo(num, cfg, nodes[id], now, decayed[id])
  }

  ghost predicate Keeps(cfg: Config, decayed: Nodes, now: real, protected: set<NodeId>, after: Nodes) {
    && (forall id :: id in after <==> id in decayed && (id in protected || !Faint(cfg, decayed[id], now)))
    && forall id | id in after :: after[id] == decayed[id]
  }

  ghost predicate GraphWithin(s: Store, after: Store) {
    after.graph == map x | x in s.graph && Named(s, after.nodes, x) ::
      map y | y in s.graph[x] && Named(s, after.nodes, y) :: s.graph[x][y]
  }

  lemma PrunableExactly(cfg: Config, pi: real, node: MemoryNode, now: real)
    requires cfg.Valid(pi)
    ensures Prunable(cfg, node, now) <==> Faint(cfg, node, now)
  {
  }

  lemma AllDecay(num: Numerics, cfg: Config, s: Store, now: real)
    requires cfg.Valid(num.pi)
    ensures EachDecays(num, cfg, s.nodes, now, NodesDecayed(num, cfg, s, now).nodes)
  {
    hide Decayed, DecaysTo;
    forall id | id in s.nodes
      ensures DecaysTo(num, cfg, s.nodes[id], now, Decayed(num, cfg, s.nodes[id], now))
    {
      DecayedExactly(num, cfg, s.nodes[id], now);
    }
  }

  lemma Remain(num: Numerics, cfg: Config, s: Store, now: real, protected: set<NodeId>)
    requires cfg.Valid(num.pi)
    ensures var t := PrunedStore(num, cfg, s, now, protected);
      && Keeps(cfg, NodesDecayed(num, cfg, s, now).nodes, now, protected, t.nodes)
      && t.nodes.Keys == s.nodes.Keys - Doomed(cfg, NodesDecayed(num, cfg, s, now).nodes, now, protected)
  {
    hide Decayed, Prunable, Faint;
    var decayed := NodesDecayed(num, cfg, s, now).nodes;
    forall id | id in decayed
      ensures Prunable(cfg, decayed[id], now) <==> Faint(cfg, decayed[id], now)
    {
      PrunableExactly(cfg, num.pi, decayed[id], now);
    }
  }

  lemma GraphPruned(s: Store, doomed: set<NodeId>, after: Store)
    requires forall id :: Named(s, after.nodes, id) <==> id !in doomed
    requires after.graph == map x | x in s.graph && x !in doomed :: s.graph[x] - doomed
    ensures GraphWithin(s, after)
  {
    hide Named;
    forall x | x in after.graph
      ensures after.graph[x] == map y | y in s.graph[x] && Named(s, after.nodes, y) :: s.graph[x][y]
    {
    }
  }

  lemma TablesPruned(s: Store, doomed: set<NodeId>, after: Store)
    requires doomed <= s.nodes.Keys && after.nodes.Keys == s.nodes.Keys - doomed
    requires after == PrunedAll(s, doomed).(nodes := after.nodes)
    ensures TablesWithin(s, after)
  {
    assert forall id :: Named(s, after.nodes, id) <==> id !in doomed;
    hide Named, GraphWithin;
    GraphPruned(s, doomed, after);
  }

  lemma PrunedExactly(num: Numerics, cfg: Config, s: Store, now: real, protected: set<NodeId>)
    requires cfg.Valid(num.pi)
    ensures PrunesTo(num, cfg, s, now, protected, PrunedStore(num, cfg, s, now, protected))
  {
    var decayed := NodesDecayed(num, cfg, s, now);
    var doomed := Doomed(cfg, decayed.nodes, now, protected);
    Remain(num, cfg, s, now, protected);
    AllDecay(num, cfg, s, now);
    assert doomed <= s.nodes.Keys;
    assert PrunedStore(num, cfg, s, now, protected)
      == PrunedAll(s, doomed).(nodes := PrunedStore(num, cfg, s, now, protected).nodes);
    hide Decayed, EachDecays, Keeps, TablesWithin, Prunable, PrunedStore;
    TablesPruned(s, doomed, PrunedStore(num, cfg, s, now, protected));
  }

  // ----- Stretching -----

  lemma StretchedExactly(num: Numerics, cfg: Config, nodes: Nodes, visited: set<NodeId>)
    requires cfg.Valid(num.pi)
    ensures AllStretched(cfg, nodes, visited).Keys == nodes.Keys
    ensures forall id | id in nodes :: var after := AllStretched(cfg, nodes, visited)[id];
      && (id in visited ==> TauStretched(cfg, nodes[id].tau, after.tau) && after == nodes[id].(tau := after.tau))
      && (id !in visited ==> after == nodes[id])
  {
    hide LongerTau, TauStretched;
    forall id | id in nodes
      ensures TauStretched(cfg, nodes[id].tau, LongerTau(cfg, nodes[id].tau))
    {
      TauStretchedExactly(num, cfg, nodes[id].tau);
    }
  }
}

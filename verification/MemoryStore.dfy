/** The state of the DCMDb store as a value, and every elementary change the
    public operations are made of. A `Step` names a change together with what
    the caller chose (a winner, a pair, a time); `Apply` is its effect. */
module MemoryStore {
  import opened Collections
  import opened Ranking
  import opened MemoryNodes

  datatype Store = Store(
    nodes: Nodes,
    absorbed: Nodes,
    graph: Graph,
    visitCounts: Row,
    coactivations: Pairs,
    logicalTime: real,
    lastEdgeDecay: real,
    spawnCounter: nat,
    dreamCounter: nat)

  datatype PmiMode = Coupled | Decoupled | Hybrid

  datatype PmiVariant = Positive | Normalized | Shifted

  datatype PmiSignificance = Plain | G2 | ChiSquared

  datatype Policy = Policy(
    maximumSecondaryUpdates: Option<nat>, sourcePriorWeight: real,
    pmiMode: PmiMode, pmiVariant: PmiVariant, pmiShift: real,
    pmiSignificance: PmiSignificance, significancePower: real,
    adaptiveMergeAngle: bool, mergeAngleMargin: real, useDecayedEffectiveSamples: bool)
  {
    predicate Valid(pi: real) {
      && sourcePriorWeight >= 0.0 && pmiShift >= 0.0 && significancePower >= 0.0
      && -pi <= mergeAngleMargin <= pi
    }
  }

  datatype Step =
    | Clock(now: real)
    | DecayEdges(now: real)
    | DecayNodes(now: real)
    | Count(visits: Row, meetings: Pairs)
    | Spawn(event: EventId, input: Vector, now: real, source: Option<string>, metadata: map<string, string>)
    | Reinforce(id: NodeId, event: EventId, input: Vector, similarity: real, now: real, source: Option<string>)
    | Annotate(id: NodeId, metadata: map<string, string>)
    | Relieve(id: NodeId, bayesian: bool)
    | Refresh(policy: Policy, total: real)
    | Merge(left: NodeId, right: NodeId, node: MemoryNode)
    | Prune(id: NodeId)
    | Stretch(id: NodeId)
    | BeginDream

  // ----- Decay and counting -----

  function RowScaled(row: Row, rho: real): Row { map y | y in row :: row[y] * rho }

  function GraphScaled(graph: Graph, rho: real): Graph {
    map x | x in graph :: RowScaled(graph[x], rho)
  }

  function PairsScaled(co: Pairs, rho: real): Pairs {
    map p | p in co :: co[p] * rho
  }

  function EdgesScaled(s: Store, rho: real, now: real): Store {
    s.(visitCounts := RowScaled(s.visitCounts, rho),
       coactivations := PairsScaled(s.coactivations, rho),
       graph := GraphScaled(s.graph, rho),
       lastEdgeDecay := now)
  }

  function EdgeRate(num: Numerics, cfg: Config, elapsed: real): real {
    num.exp(num.Div(-elapsed, Max(cfg.tauEdge, cfg.eps)))
  }

  function EdgesDecayed(num: Numerics, cfg: Config, s: Store, now: real): Store {
    var elapsed := Max(now - s.lastEdgeDecay, 0.0);
    if elapsed <= 0.0 then s else EdgesScaled(s, EdgeRate(num, cfg, elapsed), now)
  }

  function NodesDecayed(num: Numerics, cfg: Config, s: Store, now: real): Store {
    s.(nodes := map id | id in s.nodes :: Decayed(num, cfg, s.nodes[id], now))
  }

  function RowAdded(a: Row, b: Row): Row { map id | id in a.Keys + b.Keys :: Get(a, id) + Get(b, id) }

  function PairsAdded(a: Pairs, b: Pairs): Pairs {
    map p | p in a.Keys + b.Keys :: Get(a, p) + Get(b, p)
  }

  function Counted(s: Store, visits: Row, meetings: Pairs): Store {
    s.(visitCounts := RowAdded(s.visitCounts, visits),
       coactivations := PairsAdded(s.coactivations, meetings))
  }

  /** One visit for each identifier. */
  function Once(ids: set<NodeId>): Row { map id | id in ids :: 1.0 }

  /** One meeting for each ordered pair of different identifiers. */
  function Together(ids: set<NodeId>): Pairs {
    map a, b | a in ids && b in ids && a != b :: (a, b) := 1.0
  }

  function Spawned(num: Numerics, cfg: Config, s: Store, event: EventId, input: Vector, now: real,
                   source: Option<string>, metadata: map<string, string>): Store
  {
    var id := num.nodeHash(event, s.spawnCounter);
    s.(nodes := s.nodes[id := Fresh(num, cfg, id, event, input, now, source, metadata)],
       graph := if id in s.graph then s.graph else s.graph[id := map[]],
       visitCounts := if id in s.visitCounts then s.visitCounts else s.visitCounts[id := 0.0],
       spawnCounter := s.spawnCounter + 1)
  }

  // ----- Edge refresh -----

  function RowOf(graph: Graph, x: NodeId): Row { if x in graph then graph[x] else map[] }

  /** The measure of association a policy takes of a pair's log-ratio. */
  function Association(num: Numerics, policy: Policy, joint: real, logRatio: real): real {
    match policy.pmiVariant
    case Positive => Max(logRatio, 0.0)
    case Normalized => Max(logRatio / Max(-num.ln(Max(joint, 0.000000000001)), 0.000000000001), 0.0)
    case Shifted => Max(logRatio - policy.pmiShift, 0.0)
  }

  /** How significant a pair's count is, if the policy asks. */
  function Significance(policy: Policy, jointCount: real, leftCount: real, rightCount: real, total: real,
                        logRatio: real): Option<real>
  {
    match policy.pmiSignificance
    case Plain => None
    case G2 => Some(Max(2.0 * jointCount * logRatio, 0.0))
    case ChiSquared =>
      var expected := leftCount * rightCount / Max(total, 0.000000000001);
      var gap := jointCount - expected;
      Some(gap * gap / Max(expected, 0.000000000001))
  }

  function JointFrequency(jointCount: real, epsilon: real, total: real): real
    requires total > 0.0
  {
    (jointCount + epsilon) / total
  }

  /** How often a pair would meet if visits were independent. */
  function Independent(leftCount: real, rightCount: real, total: real): real
    requires total > 0.0
  {
    (leftCount / total) * (rightCount / total)
  }

  /** The logarithm of the joint frequency over what independent visits would give. */
  function LogRatio(num: Numerics, joint: real, leftCount: real, rightCount: real, total: real): real
    requires total > 0.0
  {
    var independent := Independent(leftCount, rightCount, total);
    num.ln(Max(joint, 0.000000000001) / Max(independent, 0.000000000001))
  }

  function RaisedBy(num: Numerics, policy: Policy, base: real, significance: Option<real>): real {
    if significance.None? then base else base * (1.0 + num.power(significance.value, policy.significancePower))
  }

  /** Positive pointwise mutual information of one coactivated pair. */
  function Ppmi(num: Numerics, policy: Policy, jointCount: real, leftCount: real, rightCount: real,
                epsilon: real, total: real): real
    requires total > 0.0
  {
    var joint := JointFrequency(jointCount, epsilon, total);
    var logRatio := LogRatio(num, joint, leftCount, rightCount, total);
    RaisedBy(num, policy, Association(num, policy, joint, logRatio),
             Significance(policy, jointCount, leftCount, rightCount, total, logRatio))
  }

  /** One learning step from the previous edge weight towards the pair's information. */
  function Learned(num: Numerics, cfg: Config, policy: Policy, previous: real, jointCount: real,
                   leftVisits: real, rightVisits: real, total: real): real
    requires total > 0.0
  {
    (1.0 - cfg.pmiLearningRate) * previous
    + cfg.pmiLearningRate * Ppmi(num, policy, jointCount,
        leftVisits + cfg.pmiEpsilon, rightVisits + cfg.pmiEpsilon, cfg.pmiEpsilon, total)
  }

  /** The new weight of one coactivated pair, from the old edge, the count and the visits. */
  function Weight(num: Numerics, cfg: Config, policy: Policy, graph: Graph,
                  co: Pairs, visits: Row, total: real, p: (NodeId, NodeId)): real
    requires total > 0.0 && p in co
  {
    Learned(num, cfg, policy, Get(RowOf(graph, p.0), p.1), co[p], Get(visits, p.0), Get(visits, p.1), total)
  }

  function Weights(num: Numerics, cfg: Config, policy: Policy, graph: Graph,
                   co: Pairs, visits: Row, total: real): Pairs
    requires total > 0.0
  {
    map p | p in co :: Weight(num, cfg, policy, graph, co, visits, total, p)
  }

  /** Row `x` with the weights listed for it written over it. */
  function Overlaid(row: Row, weights: Pairs, x: NodeId): Row {
    map y | y in row.Keys + (set p | p in weights && p.0 == x :: p.1) ::
      if (x, y) in weights then weights[(x, y)] else Get(row, y)
  }

  function Blended(graph: Graph, weights: Pairs): Graph {
    map x | x in graph.Keys + (set p | p in weights :: p.0) :: Overlaid(RowOf(graph, x), weights, x)
  }

  function Positives(row: Row): Row { map y | y in row && row[y] > 0.0 :: row[y] }

  /** The strongest `limit` entries, and of those the positive ones. */
  function Kept(row: Row, limit: nat): Row { Positives(Trimmed(row, limit)) }

  ghost function Total(counts: Row): real { Sum(counts.Keys, id => Get(counts, id)) }

  ghost function TotalVisits(s: Store): real { Total(s.visitCounts) }

  function AllKept(graph: Graph, limit: nat): Graph {
    map x | x in graph :: Kept(graph[x], limit)
  }

  function RefreshedGraph(num: Numerics, cfg: Config, policy: Policy, s: Store, total: real): Graph
    requires total > 0.0
  {
    AllKept(Blended(s.graph, Weights(num, cfg, policy, s.graph, s.coactivations, s.visitCounts, total)), cfg.topEdges)
  }

  /** A nonpositive total leaves the graph alone. */
  function Refreshed(num: Numerics, cfg: Config, policy: Policy, s: Store, total: real): Store {
    if total <= 0.0 then s else s.(graph := RefreshedGraph(num, cfg, policy, s, total))
  }

  // ----- Merging -----

  /** Entrywise maximum of two rows; an entry of one row alone is kept as it is. */
  function Strongest(a: Row, b: Row): Row {
    map y | y in a.Keys + b.Keys :: if y !in b then a[y] else if y !in a then b[y] else Max(a[y], b[y])
  }

  /** The surviving node's row: both rows joined, without the pair itself, cut to the degree limit. */
  function JoinedRow(cfg: Config, graph: Graph, left: NodeId, right: NodeId): Row {
    Trimmed(Strongest(RowOf(graph, left), RowOf(graph, right)) - {left, right}, cfg.topEdges)
  }

  /** Another node's row: its edge to `right` is folded into its edge to `left`.
      A neighbour of `right` gains the edge even when it had none, at weight zero. */
  function RedirectedRow(graph: Graph, left: NodeId, right: NodeId, x: NodeId): Row {
    var row := RowOf(graph, x);
    if x !in RowOf(graph, right) then row - {right}
    else Strongest(row, map[left := Get(row, right)]) - {right}
  }

  function MergedGraph(cfg: Config, graph: Graph, left: NodeId, right: NodeId): Graph {
    map x | x in graph && x != right ::
      if x == left then JoinedRow(cfg, graph, left, right) else RedirectedRow(graph, left, right, x)
  }

  function PairCount(co: Pairs, left: NodeId, right: NodeId, x: NodeId): real {
    Get(co, (left, x)) + Get(co, (right, x))
  }

  function PairsWith(left: NodeId, others: set<NodeId>): set<(NodeId, NodeId)> {
    (set x | x in others :: (left, x)) + (set x | x in others :: (x, left))
  }

  /** Both directions between `left` and each node of `joined` set to the pair's combined count. */
  function Joined(co: Pairs, left: NodeId, right: NodeId, joined: set<NodeId>): Pairs {
    map p: (NodeId, NodeId) | p in co.Keys + PairsWith(left, joined)
      :: if p.0 == left && p.1 in joined then PairCount(co, left, right, p.1)
         else if p.1 == left && p.0 in joined then PairCount(co, left, right, p.0)
         else Get(co, p)
  }

  function PairsWithout(co: Pairs, id: NodeId): Pairs {
    map p | p in co && p.0 != id && p.1 != id :: co[p]
  }

  function MergedCoactivations(active: set<NodeId>, co: Pairs, left: NodeId, right: NodeId): Pairs {
    var joined := set x | x in active && x != left && x != right && PairCount(co, left, right, x) > 0.0;
    PairsWithout(Joined(co, left, right, joined), right)
  }

  /** `node` replaces `left`; `right` is archived as it is. */
  function MergedStore(cfg: Config, s: Store, left: NodeId, right: NodeId, node: MemoryNode): Store
    requires left in s.nodes && right in s.nodes && left != right
  {
    s.(nodes := s.nodes[left := node] - {right},
       absorbed := s.absorbed[right := s.nodes[right]],
       graph := MergedGraph(cfg, s.graph, left, right),
       visitCounts := s.visitCounts[left := Get(s.visitCounts, left) + Get(s.visitCounts, right)] - {right},
       coactivations := MergedCoactivations(s.nodes.Keys, s.coactivations, left, right))
  }

  /** The evidence test on two active nodes, by raw or by decayed visits. */
  function FitOf(num: Numerics, cfg: Config, policy: Policy, s: Store, left: NodeId, right: NodeId): Fit
    requires left in s.nodes && right in s.nodes
  {
    MergeFit(num, cfg, s.nodes[left], s.nodes[right],
      if policy.useDecayedEffectiveSamples then Get(s.visitCounts, left) + Get(s.visitCounts, right)
      else s.nodes[left].visits + s.nodes[right].visits)
  }

  function Similarities(nodes: Nodes, left: NodeId): Row {
    map right | right in nodes && right != left && left in nodes :: Dot(nodes[left].centroid, nodes[right].centroid)
  }

  /** For each listed node its most similar other node, ties to the smaller
      identifier, with the similarity (itself when it is alone). */
  function NearestPairs(nodes: Nodes, ids: seq<NodeId>): (pairs: seq<(NodeId, real)>)
    ensures |pairs| == |ids|
  {
    seq(|ids|, i requires 0 <= i < |ids| => NearestPair(nodes, ids[i]))
  }

  function NearestPair(nodes: Nodes, left: NodeId): (NodeId, real) {
    var scores := Similarities(nodes, left);
    var ranked := Ranked(scores);
    if ranked == [] || ranked[0] !in scores then (left, 0.0) else (ranked[0], scores[ranked[0]])
  }

  // ----- Pruning -----

  function GraphWithout(graph: Graph, id: NodeId): Graph {
    map x | x in graph && x != id :: graph[x] - {id}
  }

  function Pruned(s: Store, id: NodeId): Store {
    s.(nodes := s.nodes - {id},
       graph := GraphWithout(s.graph, id),
       visitCounts := s.visitCounts - {id},
       coactivations := PairsWithout(s.coactivations, id))
  }

  /** All the listed nodes gone at once. */
  function PrunedAll(s: Store, ids: set<NodeId>): Store {
    s.(nodes := s.nodes - ids,
       graph := map x | x in s.graph && x !in ids :: s.graph[x] - ids,
       visitCounts := s.visitCounts - ids,
       coactivations := map p | p in s.coactivations && p.0 !in ids && p.1 !in ids :: s.coactivations[p])
  }

  lemma PruneOneRow(graph: Graph, ids: set<NodeId>, id: NodeId, x: NodeId)
    requires id in ids && x in graph && x !in ids
    ensures GraphWithout(graph, id)[x] - (ids - {id}) == graph[x] - ids
  {
  }

  lemma PruneOneOf(s: Store, ids: set<NodeId>, id: NodeId)
    requires id in ids
    ensures PrunedAll(Pruned(s, id), ids - {id}) == PrunedAll(s, ids)
  {
    hide GraphWithout;
    var t, u := PrunedAll(Pruned(s, id), ids - {id}), PrunedAll(s, ids);
    GraphWithoutKeys(s.graph, id);
    forall x | x in u.graph
      ensures t.graph[x] == u.graph[x]
    {
      PruneOneRow(s.graph, ids, id, x);
    }
    assert t.graph == u.graph;
    PruneOneElse(s, ids, id);
  }

  lemma GraphWithoutKeys(graph: Graph, id: NodeId)
    ensures GraphWithout(graph, id).Keys == graph.Keys - {id}
  {
  }

  lemma PruneOneElse(s: Store, ids: set<NodeId>, id: NodeId)
    requires id in ids
    ensures PrunedAll(Pruned(s, id), ids - {id}).(graph := s.graph) == PrunedAll(s, ids).(graph := s.graph)
  {
    hide GraphWithout;
    var t, u := PrunedAll(Pruned(s, id), ids - {id}), PrunedAll(s, ids);
    assert t.nodes == u.nodes && t.visitCounts == u.visitCounts && t.coactivations == u.coactivations;
  }

  lemma PruneNone(s: Store)
    ensures PrunedAll(s, {}) == s
  {
    var t := PrunedAll(s, {});
    forall x | x in s.graph
      ensures t.graph[x] == s.graph[x]
    {
    }
    assert t.graph == s.graph && t.nodes == s.nodes && t.visitCounts == s.visitCounts
      && t.coactivations == s.coactivations;
  }

  /** A node a dream visited forgets more slowly. */
  function Stretched(cfg: Config, node: MemoryNode): MemoryNode {
    node.(tau := LongerTau(cfg, node.tau))
  }

  // ----- The step relation -----

  ghost predicate Countable(s: Store, visits: Row, meetings: Pairs) {
    && (forall id | id in visits :: id in s.nodes && visits[id] >= 0.0)
    && (forall p | p in meetings ::
          && p.0 in s.nodes && p.1 in s.nodes && p.0 != p.1 && meetings[p] >= 0.0
          && (p.1, p.0) in meetings && meetings[(p.1, p.0)] == meetings[p])
  }

  /** What the operations guarantee when they take a step. */
  ghost predicate Enabled(cfg: Config, s: Store, step: Step) {
    match step
    case Count(visits, meetings) => Countable(s, visits, meetings)
    case Spawn(_, input, _, _, _) => |input| == cfg.dimension
    case Reinforce(id, _, input, _, _, _) => id in s.nodes && |input| == cfg.dimension
    case Annotate(id, _) => id in s.nodes
    case Relieve(id, _) => id in s.nodes
    case Refresh(_, total) => total == TotalVisits(s) + cfg.pmiEpsilon
    case Merge(left, right, node) =>
      && left in s.nodes && right in s.nodes && left != right
      && Combines(s.nodes[left], s.nodes[right], right, node)
    case Prune(id) => id in s.nodes
    case Stretch(id) => id in s.nodes
    case _ => true
  }

  ghost function Apply(num: Numerics, cfg: Config, s: Store, step: Step): Store
    requires Enabled(cfg, s, step)
  {
    match step
    case Clock(now) => s.(logicalTime := now)
    case DecayEdges(now) => EdgesDecayed(num, cfg, s, now)
    case DecayNodes(now) => NodesDecayed(num, cfg, s, now)
    case Count(visits, meetings) => Counted(s, visits, meetings)
    case Spawn(event, input, now, source, metadata) => Spawned(num, cfg, s, event, input, now, source, metadata)
    case Reinforce(id, event, input, similarity, now, source) =>
      s.(nodes := s.nodes[id := Reinforced(num, cfg, s.nodes[id], event, input, similarity, now, source)])
    case Annotate(id, metadata) =>
      s.(nodes := s.nodes[id := s.nodes[id].(metadata := s.nodes[id].metadata + metadata)])
    case Relieve(id, bayesian) =>
      s.(nodes := s.nodes[id := Relieved(num, cfg, s.nodes[id], bayesian)])
    case Refresh(policy, total) => Refreshed(num, cfg, policy, s, total)
    case Merge(left, right, node) => MergedStore(cfg, s, left, right, node)
    case Prune(id) => Pruned(s, id)
    case Stretch(id) => s.(nodes := s.nodes[id := Stretched(cfg, s.nodes[id])])
    case BeginDream =>
      s.(dreamCounter := if s.dreamCounter < U64_MAX then s.dreamCounter + 1 else U64_MAX)
  }

  /** `to` is reached from `s` by taking the listed steps in order. */
  ghost predicate Reaches(num: Numerics, cfg: Config, s: Store, steps: seq<Step>, to: Store)
    decreases |steps|
  {
    if steps == [] then s == to
    else Enabled(cfg, s, steps[0]) && Reaches(num, cfg, Apply(num, cfg, s, steps[0]), steps[1..], to)
  }

  lemma {:induction false} ReachesConcat(num: Numerics, cfg: Config, s: Store, first: seq<Step>, middle: Store,
                                         second: seq<Step>, to: Store)
    requires Reaches(num, cfg, s, first, middle) && Reaches(num, cfg, middle, second, to)
    ensures Reaches(num, cfg, s, first + second, to)
    decreases |first|
  {
    if first == [] {
      assert first + second == second;
    } else {
      ReachesConcat(num, cfg, Apply(num, cfg, s, first[0]), first[1..], middle, second, to);
      assert (first + second)[1..] == first[1..] + second;
    }
  }

  /** Where steps lead is determined by where they start. */
  lemma {:induction false} ReachesOnce(num: Numerics, cfg: Config, s: Store, steps: seq<Step>, t: Store, u: Store)
    requires Reaches(num, cfg, s, steps, t) && Reaches(num, cfg, s, steps, u)
    ensures t == u
    decreases |steps|
  {
    hide Apply, Enabled;
    if steps != [] {
      ReachesOnce(num, cfg, Apply(num, cfg, s, steps[0]), steps[1..], t, u);
    }
  }
}

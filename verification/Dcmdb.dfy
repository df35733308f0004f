/** The DCMDb memory store as the mutable object it is: six interlocking maps
    updated in place, every operation proved against its value-level effect. */
module Dcmdb {
  import opened Collections
  import opened Ranking
  import opened MemoryNodes
  import opened NodeLaws
  import opened MemoryStore
  import opened StoreInvariant
  import opened StoreTheorems
  import opened StoreLoops
  import opened StoreRuns
  import opened Dreaming
  import opened Observing
  import PageRank
  import opened EvidenceExpansion
  import opened DreamOutcomes
  import opened StoreLaws
  import opened ConsolidationPass
  import opened Walking

  datatype MaintenanceReport = MaintenanceReport(merges: nat, pruned: nat, walksCompleted: nat, nodesReactivated: nat)

  class Memory {
    const num: Numerics
    const config: Config
    var nodes: Nodes
    var absorbed: Nodes
    var graph: Graph
    var visitCounts: Row
    var coactivations: Pairs
    var logicalTime: real
    var lastEdgeDecay: real
    var spawnCounter: nat
    var dreamCounter: nat

    ghost function State(): Store
      reads this
    {
      Store(nodes, absorbed, graph, visitCounts, coactivations, logicalTime, lastEdgeDecay, spawnCounter, dreamCounter)
    }

    ghost predicate Valid()
      reads this
    {
      num.Valid() && config.Valid(num.pi) && Inv(num, config, State())
    }

    constructor (num: Numerics, config: Config)
      requires num.Valid() && config.Valid(num.pi)
      ensures Valid() && State() == EMPTY && this.num == num && this.config == config
    {
      this.num, this.config := num, config;
      nodes, absorbed, graph := map[], map[], map[];
      visitCounts, coactivations := map[], map[];
      logicalTime, lastEdgeDecay, spawnCounter, dreamCounter := 0.0, 0.0, 0, 0;
      new;
      EmptyStoreIsOk(num, config);
    }

    // ----- Elementary changes -----

    method DecayEdges(now: real)
      requires Valid()
      modifies this
      ensures Valid() && State() == EdgesDecayed(num, config, old(State()), now)
    {
      EdgeDecayKeeps(num, config, State(), now);
      var elapsed := Max(now - lastEdgeDecay, 0.0);
      if elapsed <= 0.0 {
        return;
      }
      var rho := EdgeRate(num, config, elapsed);
      visitCounts := RowScaled(visitCounts, rho);
      coactivations := PairsScaled(coactivations, rho);
      graph := GraphScaled(graph, rho);
      lastEdgeDecay := now;
    }

    method DecayNodes(now: real)
      requires Valid()
      modifies this`nodes
      ensures Valid() && State() == NodesDecayed(num, config, old(State()), now)
    {
      NodeDecayKeeps(num, config, State(), now);
      nodes := map id | id in nodes :: Decayed(num, config, nodes[id], now);
    }

    method RecordCoactivation(ids: seq<NodeId>)
      requires Valid() && Distinct(ids) && ToSet(ids) <= nodes.Keys
      modifies this`visitCounts, this`coactivations
      ensures Valid() && State() == Counted(old(State()), Once(ToSet(ids)), Together(ToSet(ids)))
    {
      hide Inv, RowAdded, PairsAdded, Once, Together;
      TogetherKeeps(num, config, State(), ToSet(ids));
      CountVisits(ids);
      CountMeetings(ids);
    }

    /** The first loop of `record_coactivation`. */
    method CountVisits(ids: seq<NodeId>)
      requires Distinct(ids)
      modifies this`visitCounts
      ensures visitCounts == RowAdded(old(visitCounts), Once(ToSet(ids)))
    {
      ghost var base, done := visitCounts, {};
      NothingAdded(visitCounts, map[]);
      for i := 0 to |ids|
        invariant visitCounts == RowAdded(base, Once(done))
        invariant forall k | 0 <= k < |ids| :: ids[k] in done <==> k < i
        invariant done <= ToSet(ids)
      {
        BumpVisit(base, done, ids[i], visitCounts);
        visitCounts := visitCounts[ids[i] := Get(visitCounts, ids[i]) + 1.0];
        done := done + {ids[i]};
      }
      assert done == ToSet(ids);
    }

    method CountPair(a: NodeId, b: NodeId, ghost base: Pairs, ghost done: set<(NodeId, NodeId)>)
      requires a != b && (a, b) !in done && (b, a) !in done
      requires coactivations == PairsAdded(base, PairsOnce(done))
      modifies this`coactivations
      ensures coactivations == PairsAdded(base, PairsOnce(done + {(a, b), (b, a)}))
    {
      ghost var before := coactivations;
      coactivations := coactivations[(a, b) := Get(coactivations, (a, b)) + 1.0];
      BumpBoth(base, done, a, b, before, coactivations);
      coactivations := coactivations[(b, a) := Get(coactivations, (b, a)) + 1.0];
    }

    /** Its second loop, over each unordered pair. */
    method CountMeetings(ids: seq<NodeId>)
      requires Distinct(ids)
      modifies this`coactivations
      ensures coactivations == PairsAdded(old(coactivations), Together(ToSet(ids)))
    {
      ghost var base, done := coactivations, {};
      NothingAdded(map[], coactivations);
      MetNothing(ids);
      for i := 0 to |ids|
        invariant MetSoFar(ids, done, i, i)
        invariant coactivations == PairsAdded(base, PairsOnce(done))
      {
        MetRowStart(ids, i, done);
        for j := i + 1 to |ids|
          invariant MetSoFar(ids, done, i, j)
          invariant coactivations == PairsAdded(base, PairsOnce(done))
        {
          MetExtends(ids, i, j, done);
          CountPair(ids[i], ids[j], base, done);
          done := done + {(ids[i], ids[j]), (ids[j], ids[i])};
        }
        MetRowEnd(ids, i, done);
      }
      AllMet(ids, done);
    }

    lemma SpawnIsValid(event: EventId, input: Vector, now: real, source: Option<string>, metadata: map<string, string>)
      requires Valid() && |input| == config.dimension
      ensures num.Valid() && config.Valid(num.pi)
      ensures Inv(num, config, Spawned(num, config, State(), event, input, now, source, metadata))
      ensures num.nodeHash(event, spawnCounter) !in nodes && num.nodeHash(event, spawnCounter) !in absorbed
    {
      SpawnIsFresh(num, State(), event);
      SpawnKeeps(num, config, State(), event, input, now, source, metadata);
    }

    method Spawn(event: EventId, input: Vector, now: real, source: Option<string>, metadata: map<string, string>)
      returns (id: NodeId)
      requires Valid() && |input| == config.dimension
      modifies this`nodes, this`graph, this`visitCounts, this`spawnCounter
      ensures Valid() && State() == Spawned(num, config, old(State()), event, input, now, source, metadata)
      ensures id == num.nodeHash(event, old(spawnCounter)) && id in nodes
      ensures id !in old(nodes) && id !in absorbed
    {
      hide Inv, Fresh, Numerics.Valid, Config.Valid;
      ghost var s := State();
      SpawnIsValid(event, input, now, source, metadata);
      id := num.nodeHash(event, spawnCounter);
      spawnCounter := spawnCounter + 1;
      nodes := nodes[id := Fresh(num, config, id, event, input, now, source, metadata)];
      if id !in graph {
        graph := graph[id := map[]];
      }
      if id !in visitCounts {
        visitCounts := visitCounts[id := 0.0];
      }
      assert State() == Spawned(num, config, s, event, input, now, source, metadata);
    }

    // ----- Edge refresh -----

    method SmoothedTotal() returns (total: real)
      ensures total == Total(visitCounts) + config.pmiEpsilon
    {
      total := 0.0;
      var counts := visitCounts;
      var todo := counts.Keys;
      ghost var done := {};
      while todo != {}
        invariant done !! todo && done + todo == counts.Keys
        invariant total == Sum(done, id => Get(counts, id))
        decreases |todo|
      {
        var id :| id in todo;
        SumInsert(done, id => Get(counts, id), id);
        total := total + counts[id];
        todo, done := todo - {id}, done + {id};
      }
      assert done == counts.Keys;
      total := total + config.pmiEpsilon;
    }

    /** One turn of the refresh loop; `weights` lists what every turn will write. */
    method BlendPair(policy: Policy, total: real, p: (NodeId, NodeId),
                     ghost base: Graph, ghost weights: Pairs, ghost done: set<(NodeId, NodeId)>)
      requires total > 0.0 && p in coactivations && p !in done
      requires weights == Weights(num, config, policy, base, coactivations, visitCounts, total)
      requires graph == Blended(base, Only(weights, done))
      modifies this`graph
      ensures graph == Blended(base, Only(weights, done + {p}))
    {
      BlendStep(base, weights, done, p, graph);
      var row := RowOf(graph, p.0);
      var weight := Learned(num, config, policy, Get(row, p.1), coactivations[p],
                            Get(visitCounts, p.0), Get(visitCounts, p.1), total);
      graph := graph[p.0 := row[p.1 := weight]];
    }

    method BlendAll(policy: Policy, total: real, ghost weights: Pairs)
      requires total > 0.0 && weights == Weights(num, config, policy, graph, coactivations, visitCounts, total)
      modifies this`graph
      ensures graph == Blended(old(graph), weights)
    {
      ghost var base, done := graph, {};
      var todo := coactivations.Keys;
      NothingBlended(base, weights);
      while todo != {}
        invariant forall p | p in todo :: p in coactivations && p !in done
        invariant forall p | p in coactivations :: p in todo || p in done
        invariant done <= coactivations.Keys
        invariant graph == Blended(base, Only(weights, done))
        decreases |todo|
      {
        var p :| p in todo;
        BlendPair(policy, total, p, base, weights, done);
        todo, done := todo - {p}, done + {p};
      }
      AllBlended(base, weights, done);
    }

    method RefreshWith(policy: Policy, total: real)
      modifies this`graph
      ensures State() == Refreshed(num, config, policy, old(State()), total)
    {
      hide Weights, Blended, Kept;
      if total > 0.0 {
        BlendAll(policy, total, Weights(num, config, policy, graph, coactivations, visitCounts, total));
        graph := AllKept(graph, config.topEdges);
      }
    }

    lemma RefreshedIsValid(policy: Policy, total: real)
      requires Valid()
      ensures num.Valid() && config.Valid(num.pi) && Inv(num, config, Refreshed(num, config, policy, State(), total))
    {
      RefreshKeeps(num, config, State(), policy, total);
    }

    method RefreshEdges(policy: Policy) returns (ghost total: real)
      requires Valid()
      modifies this`graph
      ensures Valid()
      ensures total == TotalVisits(old(State())) + config.pmiEpsilon
      ensures State() == Refreshed(num, config, policy, old(State()), total)
      ensures total > 0.0 ==> GraphLearns(num, config, policy, old(State()), total, graph)
    {
      hide GraphLearns;
      var sum := SmoothedTotal();
      RefreshedIsValid(policy, sum);
      RefreshedExactly(num, config, policy, State(), sum);
      RefreshWith(policy, sum);
      total := sum;
    }

    // ----- Merging -----

    /** Raise the edge from `x` to `y`, creating it if needed. */
    method RaiseEdge(x: NodeId, y: NodeId, weight: real)
      modifies this`graph
      ensures graph == old(graph)[x := Strongest(RowOf(old(graph), x), map[y := weight])]
    {
      var row: Row := RowOf(graph, x);
      var raised := if y in row then Max(row[y], weight) else weight;
      assert row[y := raised] == Strongest(row, map[y := weight]);
      var next: Row := row[y := raised];
      graph := graph[x := next];
    }

    /** Both sides of redirecting one neighbour of `right` to `left`. */
    method RedirectNeighbor(left: NodeId, right: NodeId, neighbor: NodeId, weight: real,
                            ghost base: Graph, ghost done: set<NodeId>)
      requires left in base && neighbor in base && left != right && neighbor != left && neighbor != right
      requires neighbor in RowOf(base, right) && RowOf(base, right)[neighbor] == weight && neighbor !in done
      requires graph == Redirected(base, left, right, done)
      modifies this`graph
      ensures graph == Redirected(base, left, right, done + {neighbor})
    {
      ghost var now := graph;
      RaiseEdge(left, neighbor, weight);
      RedirectStep(base, left, right, done, neighbor, now, graph);
      RaiseEdge(neighbor, left, Get(RowOf(graph, neighbor), right));
    }

    method MergeEdges(left: NodeId, right: NodeId, ghost active: set<NodeId>)
      requires GraphOk(active, graph) && left in active && right in active && left != right
      modifies this`graph
      ensures graph == MergedGraph(config, old(graph), left, right)
    {
      ghost var base := graph;
      var rightEdges := RowOf(graph, right);
      assert RowOk(active, right, graph[right]);
      graph := graph - {right};
      var todo := rightEdges.Keys - {left};
      ghost var done := {};
      NothingRedirected(base, left, right);
      while todo != {}
        invariant forall y | y in todo :: y in rightEdges && y != left && y !in done
        invariant forall y | y in rightEdges && y != left :: y in todo || y in done
        invariant done <= rightEdges.Keys - {left}
        invariant graph == Redirected(base, left, right, done)
        decreases |todo|
      {
        var neighbor :| neighbor in todo;
        RedirectNeighbor(left, right, neighbor, rightEdges[neighbor], base, done);
        todo, done := todo - {neighbor}, done + {neighbor};
      }
      assert done == rightEdges.Keys - {left};
      ghost var now := graph;
      graph := map x | x in graph :: graph[x] - {right};
      assert graph == GraphWithout(now, right);
      AllRedirected(config, base, left, right, now, graph);
      graph := graph[left := Trimmed(graph[left] - {left}, config.topEdges)];
    }

    /** The combined count of one neighbour, written in both directions when positive. */
    method JoinNeighbor(left: NodeId, right: NodeId, neighbor: NodeId,
                        ghost base: Pairs, ghost joined: set<NodeId>) returns (ghost grown: set<NodeId>)
      requires neighbor != left && neighbor != right && left != right && neighbor !in joined && left !in joined
      requires coactivations == Joined(base, left, right, joined)
      modifies this`coactivations
      ensures grown == if PairCount(base, left, right, neighbor) > 0.0 then joined + {neighbor} else joined
      ensures coactivations == Joined(base, left, right, grown)
    {
      JoinReads(base, left, right, joined, neighbor);
      JoinStep(base, left, right, joined, neighbor, coactivations, PairCount(base, left, right, neighbor));
      var combined := Get(coactivations, (left, neighbor)) + Get(coactivations, (right, neighbor));
      grown := joined;
      if combined > 0.0 {
        coactivations := coactivations[(left, neighbor) := combined];
        coactivations := coactivations[(neighbor, left) := combined];
        grown := joined + {neighbor};
      }
    }

    /** Runs after `right` has left the active nodes. */
    method MergeCoactivations(left: NodeId, right: NodeId, ghost active: set<NodeId>)
      requires nodes.Keys == active - {right} && left != right
      modifies this`coactivations
      ensures coactivations == MergedCoactivations(active, old(coactivations), left, right)
    {
      ghost var base, joined := coactivations, {};
      var todo := nodes.Keys - {left};
      NothingJoined(coactivations, left, right);
      while todo != {}
        invariant todo <= nodes.Keys - {left}
        invariant forall x | x in joined :: x in nodes && x != left && x !in todo
        invariant forall x | x in nodes && x != left && x !in todo ::
          x in joined <==> PairCount(base, left, right, x) > 0.0
        invariant coactivations == Joined(base, left, right, joined)
        decreases |todo|
      {
        var neighbor :| neighbor in todo;
        joined := JoinNeighbor(left, right, neighbor, base, joined);
        todo := todo - {neighbor};
      }
      AllJoined(active, base, left, right, joined);
      coactivations := PairsWithout(coactivations, right);
    }

    method AbsorbNode(left: NodeId, right: NodeId, node: MemoryNode)
      requires left in nodes && right in nodes && left != right
      modifies this`nodes, this`absorbed, this`visitCounts
      ensures nodes == old(nodes)[left := node] - {right}
      ensures absorbed == old(absorbed)[right := old(nodes)[right]]
      ensures visitCounts == old(visitCounts)[left := Get(old(visitCounts), left)
                                              + Get(old(visitCounts), right)] - {right}
    {
      var gone := nodes[right];
      var visits := Get(visitCounts, right) + Get(visitCounts, left);
      nodes := nodes[left := node] - {right};
      visitCounts := visitCounts[left := visits] - {right};
      absorbed := absorbed[right := gone];
    }

    /** Replace the pair by `node` in all six maps. */
    method ReplacePair(left: NodeId, right: NodeId, node: MemoryNode)
      requires GraphOk(nodes.Keys, graph) && left in nodes && right in nodes && left != right
      modifies this`nodes, this`absorbed, this`graph, this`visitCounts, this`coactivations
      ensures State() == MergedStore(config, old(State()), left, right, node)
    {
      hide MergedGraph, MergedCoactivations, GraphOk;
      ghost var active := nodes.Keys;
      AbsorbNode(left, right, node);
      MergeEdges(left, right, active);
      MergeCoactivations(left, right, active);
    }

    method MergeInto(left: NodeId, right: NodeId, node: MemoryNode)
      requires Valid() && left in nodes && right in nodes && left != right
      requires Combines(nodes[left], nodes[right], right, node)
      modifies this`nodes, this`absorbed, this`graph, this`visitCounts, this`coactivations
      ensures Valid() && State() == MergedStore(config, old(State()), left, right, node)
    {
      MergedIsValid(left, right, node);
      ReplacePair(left, right, node);
    }

    /** Absorb `right` into `left`; the caller supplies the pair's joint statistics. */
    method MergeNodes(left: NodeId, right: NodeId, similarity: real, sum: Vector, count: real, kappa: real)
      returns (ghost node: MemoryNode)
      requires Valid() && left in nodes && right in nodes && left != right
      requires sum == Plus(nodes[left].sufficientSum, nodes[right].sufficientSum)
      modifies this`nodes, this`absorbed, this`graph, this`visitCounts, this`coactivations
      ensures node == Merged(num, config, old(nodes)[left], old(nodes)[right], right, similarity, sum, count, kappa)
      ensures Combines(old(nodes)[left], old(nodes)[right], right, node)
      ensures Valid() && State() == MergedStore(config, old(State()), left, right, node)
    {
      var merged := Merged(num, config, nodes[left], nodes[right], right, similarity, sum, count, kappa);
      MergedCombines(num, config, nodes[left], nodes[right], right, similarity, count, kappa);
      MergeInto(left, right, merged);
      node := merged;
    }

    lemma MergedIsValid(left: NodeId, right: NodeId, node: MemoryNode)
      requires Valid() && left in nodes && right in nodes && left != right
      requires Combines(nodes[left], nodes[right], right, node)
      ensures num.Valid() && config.Valid(num.pi) && Inv(num, config, MergedStore(config, State(), left, right, node))
    {
      MergeKeeps(num, config, State(), left, right, node);
    }

    // ----- Consolidation -----

    method Gate(policy: Policy, similarities: seq<real>) returns (gate: real)
      ensures gate == GateOf(num, config, policy, similarities) <= config.mergeAngle
    {
      gate := config.mergeAngle;
      if policy.adaptiveMergeAngle {
        gate := Min(gate, num.quantile(Angles(num, similarities), 0.9) + policy.mergeAngleMargin);
      }
    }

    /** The pass's merge of one accepted pair, recorded as a step of its run. */
    method MergeStep(left: NodeId, right: NodeId, similarity: real, count: real, kappa: real, ghost s: Store,
                     ghost run: Run,
                    ghost partner: map<NodeId, NodeId>)
      returns (ghost next: Run)
      requires Valid() && left in nodes && right in nodes && left != right
      requires RunsFrom(num, config, s, run, State()) && OnlyMerges(run.steps) && PairsApart(run.steps)
      requires {left, right} !! Touched(run.steps)
      requires PartnersOnly(partner, run.steps) && left in partner && right == partner[left]
      modifies this`nodes, this`absorbed, this`graph, this`visitCounts, this`coactivations
      ensures Valid() && RunsFrom(num, config, s, next, State())
      ensures OnlyMerges(next.steps) && PairsApart(next.steps)
      ensures next.steps == run.steps
        + [MergeOf(num, config, old(State()), left, right, similarity, Accepted(count, kappa))]
      ensures Touched(next.steps) == Touched(run.steps) + {left, right}
      ensures PartnersOnly(partner, next.steps)
    {
      ghost var before := State();
      var sum := Plus(nodes[left].sufficientSum, nodes[right].sufficientSum);
      ghost var node := MergeNodes(left, right, similarity, sum, count, kappa);
      TookMerge(num, config, before, left, right, node);
      next := Extend(num, config, s, run, before, Merge(left, right, node), State());
      AppendMerge(run.steps, Merge(left, right, node), partner);
    }

    /** One pass: exactly the merges due on the store it finds, which conserve
        visits, source counts, sufficient vectors and visit counts. */
    method ConsolidateWithPolicy(policy: Policy) returns (merges: nat, ghost run: Run)
      requires Valid()
      modifies this`nodes, this`absorbed, this`graph, this`visitCounts, this`coactivations
      ensures Valid() && RunsFrom(num, config, old(State()), run, State())
      ensures run.steps == PassSteps(num, config, policy, old(State())) && |run.steps| == merges
      ensures OnlyMerges(run.steps) && PairsApart(run.steps)
      ensures PassExactly(num, config, policy, old(State()), run.steps)
      ensures PassOutcome(old(State()), run.steps, State()) && PartnersOnly(Partners(old(nodes)), run.steps)
      ensures Reaches(num, config, old(State()), run.steps, State()) && Conserved(old(State()), run.steps, State())
      ensures |nodes| + merges == |old(nodes)| && |absorbed| == |old(absorbed)| + merges
      ensures config.maxMergesPerPass.Some? ==> merges <= config.maxMergesPerPass.value
    {
      hide Inv, RunsFrom, PassOutcome, Conserved, Reaches, Chosen, Partners, SurveyOf, GateOf, PassExactly;
      ghost var s := State();
      ActiveApart();
      PassIsExact(num, config, policy, s);
      merges := 0;
      run := EmptyRun(num, config, s);
      NoPairsYet(Partners(nodes));
      if |nodes| >= 2 {
        var survey := NearestList();
        merges, run := MergePairs(policy, survey, Partners(nodes));
      }
      PassFacts(s, run, State());
    }

    lemma ActiveApart()
      requires Valid()
      ensures nodes.Keys !! absorbed.Keys
    {
    }

    static lemma NoPairsYet(partner: map<NodeId, NodeId>)
      ensures var none: seq<Step> := [];
        OnlyMerges(none) && PairsApart(none) && Touched(none) == {} && PartnersOnly(partner, none)
    {
    }

    lemma PassFacts(s: Store, run: Run, t: Store)
      requires Inv(num, config, s) && RunsFrom(num, config, s, run, t) && OnlyMerges(run.steps) && PairsApart(run.steps)
      requires s.nodes.Keys !! s.absorbed.Keys
      ensures PassOutcome(s, run.steps, t) && Reaches(num, config, s, run.steps, t) && Conserved(s, run.steps, t)
      ensures |t.nodes| + |run.steps| == |s.nodes| && |t.absorbed| == |s.absorbed| + |run.steps|
    {
      hide Inv, PassOutcome, Conserved, Reaches, RunsFrom, PairsApart, OnlyMerges;
      RunReaches(num, config, s, run, t);
      MergePassNodes(num, config, s, run.steps, t);
      MergePassSizes(num, config, s, run.steps, t);
      PassConserves(num, config, s, run.steps, t);
    }

    /** Every active node in order, with its nearest other node and their similarity. */
    method NearestList() returns (v: Survey)
      requires |nodes| >= 2
      ensures v == SurveyOf(nodes) && Ascending(v.ids) && ToSet(v.ids) == nodes.Keys
      ensures forall i | 0 <= i < |v.ids| ::
        v.ids[i] in Partners(nodes) && v.rights[i] == Partners(nodes)[v.ids[i]] && v.rights[i] != v.ids[i]
    {
      hide Partners, NearestPair, Sorted, Ascending;
      var ids := Sorted(nodes.Keys);
      SortedKeys(nodes.Keys);
      var pairs := NearestPairs(nodes, ids);
      v := Survey(ids, seq(|ids|, i requires 0 <= i < |ids| => pairs[i].0),
                  seq(|ids|, i requires 0 <= i < |ids| => pairs[i].1));
      forall i | 0 <= i < |ids|
        ensures ids[i] in Partners(nodes) && v.rights[i] == Partners(nodes)[ids[i]] && v.rights[i] != ids[i]
      {
        NearestListed(nodes, ids, i);
      }
    }

    /** The evidence test on two active nodes as they now are. */
    method Fitness(policy: Policy, left: NodeId, right: NodeId) returns (fit: Fit)
      requires left in nodes && right in nodes
      ensures fit == FitOf(num, config, policy, State(), left, right)
    {
      var samples :=
        if policy.useDecayedEffectiveSamples then Get(visitCounts, left) + Get(visitCounts, right)
        else nodes[left].visits + nodes[right].visits;
      fit := MergeFit(num, config, nodes[left], nodes[right], samples);
    }

    /** Merge one candidate pair if the evidence supports it. */
    method TryMerge(policy: Policy, left: NodeId, right: NodeId, similarity: real, ghost s: Store, ghost run: Run,
                    ghost partner: map<NodeId, NodeId>)
      returns (merged: bool, ghost next: Run)
      requires Valid() && left in nodes && right in nodes && left != right
      requires RunsFrom(num, config, s, run, State()) && OnlyMerges(run.steps) && PairsApart(run.steps)
      requires {left, right} !! Touched(run.steps)
      requires PartnersOnly(partner, run.steps) && left in partner && right == partner[left]
      modifies this`nodes, this`absorbed, this`graph, this`visitCounts, this`coactivations
      ensures Valid() && RunsFrom(num, config, s, next, State())
      ensures OnlyMerges(next.steps) && PairsApart(next.steps) && PartnersOnly(partner, next.steps)
      ensures merged <==> FitOf(num, config, policy, old(State()), left, right).Accepted?
      ensures merged ==> (next.steps == run.steps
        + [MergeOf(num, config, old(State()), left, right, similarity,
                   FitOf(num, config, policy, old(State()), left, right))])
      ensures merged ==> Touched(next.steps) == Touched(run.steps) + {left, right}
      ensures !merged ==> next == run && State() == old(State())
    {
      hide Inv, RunsFrom, OnlyMerges, PairsApart, Touched, PartnersOnly, MergeFit, MergeOf;
      var fit := Fitness(policy, left, right);
      merged, next := fit.Accepted?, run;
      if fit.Accepted? {
        next := MergeStep(left, right, similarity, fit.count, fit.kappa, s, run, partner);
      }
    }

    /** One pair of the survey: merged exactly when the pass should merge it. */
    method ConsiderPair(policy: Policy, v: Survey, i: nat, gate: real, maximum: nat, cool: set<NodeId>, merges: nat,
                        ghost s: Store, ghost run: Run, ghost partner: map<NodeId, NodeId>)
      returns (merged: bool, ghost next: Run)
      requires Valid() && RunsFrom(num, config, s, run, State()) && s.nodes.Keys !! s.absorbed.Keys
      requires OnlyMerges(run.steps) && PairsApart(run.steps) && PartnersOnly(partner, run.steps)
      requires v.Even() && i < |v.ids| && v.ids[i] in partner && v.rights[i] == partner[v.ids[i]] != v.ids[i]
      requires cool == Touched(run.steps) && merges == |run.steps|
      modifies this`nodes, this`absorbed, this`graph, this`visitCounts, this`coactivations
      ensures Valid() && RunsFrom(num, config, s, next, State())
      ensures OnlyMerges(next.steps) && PairsApart(next.steps) && PartnersOnly(partner, next.steps)
      ensures merged <==> Merges(num, config, policy, s, v, gate, maximum, i, run.steps)
      ensures merged ==> (next.steps == run.steps
        + [MergeOf(num, config, s, v.ids[i], v.rights[i], v.similarities[i],
                   FitOf(num, config, policy, s, v.ids[i], v.rights[i]))])
      ensures merged ==> Touched(next.steps) == Touched(run.steps) + {v.ids[i], v.rights[i]}
      ensures !merged ==> next == run
    {
      hide Inv, RunsFrom, OnlyMerges, PairsApart, Touched, PartnersOnly, FitOf;
      var left, right := v.ids[i], v.rights[i];
      merged, next := false, run;
      if merges < maximum && left !in cool && right !in cool {
        FitStands(num, config, policy, s, run, State(), left, right);
        if left in nodes && right in nodes && num.acos(ClampUnit(v.similarities[i])) <= gate {
          merged, next := TryMerge(policy, left, right, v.similarities[i], s, run, partner);
        }
      }
    }

    method MergePairs(policy: Policy, v: Survey, ghost partner: map<NodeId, NodeId>)
      returns (merges: nat, ghost run: Run)
      requires Valid() && nodes.Keys !! absorbed.Keys && v.Even()
      requires forall i | 0 <= i < |v.ids| ::
        v.ids[i] in partner && v.rights[i] == partner[v.ids[i]] && v.rights[i] != v.ids[i]
      modifies this`nodes, this`absorbed, this`graph, this`visitCounts, this`coactivations
      ensures Valid() && RunsFrom(num, config, old(State()), run, State())
      ensures run.steps == Chosen(num, config, policy, old(State()), v, GateOf(num, config, policy, v.similarities),
                                  MaximumOf(config, old(nodes)), |v.ids|)
      ensures OnlyMerges(run.steps) && PairsApart(run.steps) && |run.steps| == merges <= MaximumOf(config, old(nodes))
      ensures PartnersOnly(partner, run.steps)
    {
      hide Inv, RunsFrom, OnlyMerges, PairsApart, Touched, PartnersOnly, Chosen, Merges, MergeOf, FitOf, GateOf;
      ghost var s := State();
      var gate := Gate(policy, v.similarities);
      var maximum := MaximumOf(config, nodes);
      var cool: set<NodeId> := {};
      merges := 0;
      run := EmptyRun(num, config, s);
      NoPairsYet(partner);
      NoneChosen(num, config, policy, s, v, gate, maximum);
      for i := 0 to |v.ids|
        invariant Valid() && RunsFrom(num, config, s, run, State())
        invariant run.steps == Chosen(num, config, policy, s, v, gate, maximum, i)
        invariant OnlyMerges(run.steps) && PairsApart(run.steps) && |run.steps| == merges <= maximum
        invariant cool == Touched(run.steps) && PartnersOnly(partner, run.steps)
      {
        var merged;
        ChosenNext(num, config, policy, s, v, gate, maximum, i, run.steps);
        ghost var before := run.steps;
        merged, run := ConsiderPair(policy, v, i, gate, maximum, cool, merges, s, run, partner);
        if merged {
          NotOver(policy, s, v, gate, maximum, i, before);
          cool := cool + {v.ids[i], v.rights[i]};
          merges := merges + 1;
        }
      }
    }

    lemma NotOver(policy: Policy, s: Store, v: Survey, gate: real, maximum: nat, i: nat, before: seq<Step>)
      requires v.Even() && i < |v.ids| && OnlyMerges(before)
        && Merges(num, config, policy, s, v, gate, maximum, i, before)
      ensures |before| < maximum
    {
    }

    // ----- Pruning -----

    /** Forget one node everywhere but in the archive. */
    method RemoveNode(id: NodeId)
      requires Valid() && id in nodes
      modifies this`nodes, this`graph, this`visitCounts, this`coactivations
      ensures Valid() && State() == Pruned(old(State()), id)
    {
      PruneKeeps(num, config, State(), id);
      nodes := nodes - {id};
      graph := GraphWithout(graph, id);
      visitCounts := visitCounts - {id};
      coactivations := PairsWithout(coactivations, id);
    }

    /** After decay, exactly the unprotected prunable nodes leave, with every edge,
        count and coactivation that names one; all else stays. */
    method PrunePassProtected(now: real, protected: set<NodeId>) returns (pruned: nat, ghost run: Run)
      requires Valid()
      modifies this`nodes, this`graph, this`visitCounts, this`coactivations
      ensures Valid() && RunsFrom(num, config, old(State()), run, State())
      ensures State() == PrunedStore(num, config, old(State()), now, protected)
      ensures PrunesTo(num, config, old(State()), now, protected, State())
      ensures |nodes| + pruned == |old(nodes)|
    {
      hide Inv, RunsFrom, NodesDecayed, Prunable, PrunedAll, PrunesTo;
      ghost var s := State();
      PrunedExactly(num, config, s, now, protected);
      run := DecayStep(now);
      DecayKeepsSize(s, now);
      pruned, run := RemoveAll(Doomed(config, nodes, now, protected), s, run);
    }

    method DecayStep(now: real) returns (ghost run: Run)
      requires Valid()
      modifies this`nodes
      ensures Valid() && State() == NodesDecayed(num, config, old(State()), now)
      ensures RunsFrom(num, config, old(State()), run, State()) && run.steps == [Step.DecayNodes(now)]
    {
      ghost var s := State();
      run := EmptyRun(num, config, s);
      TookDecayNodes(num, config, s, now);
      DecayNodes(now);
      run := Extend(num, config, s, run, s, Step.DecayNodes(now), State());
    }

    lemma SameSize(m: Nodes, n: Nodes)
      requires m.Keys == n.Keys
      ensures |m| == |n|
    {
      assert |m| == |m.Keys| && |n| == |n.Keys|;
    }

    lemma DecayKeepsSize(s: Store, now: real)
      requires nodes == NodesDecayed(num, config, s, now).nodes
      ensures |nodes| == |s.nodes|
    {
      SameSize(nodes, s.nodes);
    }

    method RemoveAll(removed: set<NodeId>, ghost s: Store, ghost run: Run) returns (pruned: nat, ghost next: Run)
      requires Valid() && removed <= nodes.Keys && RunsFrom(num, config, s, run, State())
      modifies this`nodes, this`graph, this`visitCounts, this`coactivations
      ensures Valid() && RunsFrom(num, config, s, next, State())
      ensures State() == PrunedAll(old(State()), removed) && |nodes| + pruned == |old(nodes)|
    {
      hide Inv, RunsFrom, PrunedAll, Pruned;
      var todo := removed;
      ghost var kept := PrunedAll(State(), removed);
      pruned, next := 0, run;
      while todo != {}
        invariant Valid() && RunsFrom(num, config, s, next, State())
        invariant todo <= nodes.Keys && PrunedAll(State(), todo) == kept
        invariant |nodes| + pruned == |old(nodes)|
        decreases |todo|
      {
        var id :| id in todo;
        PruneOneOf(State(), todo, id);
        next := RemoveStep(id, s, next);
        todo, pruned := todo - {id}, pruned + 1;
      }
      PruneNone(State());
    }

    method RemoveStep(id: NodeId, ghost s: Store, ghost run: Run) returns (ghost next: Run)
      requires Valid() && id in nodes && RunsFrom(num, config, s, run, State())
      modifies this`nodes, this`graph, this`visitCounts, this`coactivations
      ensures Valid() && RunsFrom(num, config, s, next, State())
      ensures State() == Pruned(old(State()), id)
      ensures nodes == old(nodes) - {id} && |nodes| == |old(nodes)| - 1
      ensures next.steps == run.steps + [Step.Prune(id)]
    {
      ghost var before := State();
      TookPrune(num, config, before, id);
      OneFewer(nodes, id);
      RemoveNode(id);
      next := Extend(num, config, s, run, before, Step.Prune(id), State());
    }

    lemma OneFewer(m: Nodes, id: NodeId)
      requires id in m
      ensures |m - {id}| == |m| - 1
    {
      assert (m - {id}).Keys == m.Keys - {id};
      assert |m| == |m.Keys| && |m - {id}| == |(m - {id}).Keys|;
    }

    // ----- Dreaming -----

    method Importance(ids: set<NodeId>, restart: real, keep: real) returns (rank: Row)
      requires Valid() && ids == nodes.Keys && ids != {} && restart == config.pagerankRestart && restart + keep == 1.0
      ensures PageRank.Distribution(ids, rank)
      ensures PageRank.IsRank(graph, ids, restart, keep, PageRank.Restart(ids, Once(ids)), rank)
    {
      hide IdsOk, HierarchyOk, NodesOk, CoactivationsOk, PageRank.IsRank;
      rank := PageRank.PersonalizedPagerank(graph, ids, restart, keep, Once(ids));
    }

    /** PageRank from every node alike. */
    method Prominence(ids: set<NodeId>) returns (rank: Row)
      requires Valid() && ids == nodes.Keys && ids != {}
      ensures PageRank.Distribution(ids, rank) && Important(config, nodes, graph, rank)
    {
      hide Inv, PageRank.Distribution, PageRank.IsRank, PageRank.Restart;
      var keep := 1.0 - config.pagerankRestart;
      rank := Importance(ids, config.pagerankRestart, keep);
    }

    /** Softmax weights of the choices at one step of a walk. */
    method WeighSteps(current: NodeId, neighbors: seq<NodeId>) returns (weights: seq<real>)
      requires forall i | 0 <= i < |neighbors| :: neighbors[i] in nodes && neighbors[i] in RowOf(graph, current)
      ensures weights == StepWeights(num, config, nodes, graph, current, neighbors)
    {
      hide Logit;
      var maximumVisits := 1.0;
      for i := 0 to |neighbors|
        invariant maximumVisits == Most(nodes, neighbors, i)
      {
        maximumVisits := Max(maximumVisits, nodes[neighbors[i]].visits);
      }
      var logits := Logits(num, config, nodes, graph, current, neighbors, maximumVisits);
      var maximumLogit := if logits == [] then 0.0 else logits[0];
      for i := 0 to |logits|
        invariant maximumLogit == Highest(logits, i)
      {
        maximumLogit := Max(maximumLogit, logits[i]);
      }
      weights := seq(|logits|, i requires 0 <= i < |logits| => num.exp(logits[i] - maximumLogit));
    }

    /** One walk from `start`, taking each step its nonce picks. */
    method Walk(start: NodeId, cycle: nat, walk: nat) returns (visited: set<NodeId>, ghost path: seq<NodeId>)
      requires start in nodes
      ensures WalkPath(num, config, nodes, graph, cycle, walk, path) && path[0] == start && visited == ToSet(path)
    {
      hide StepsTo, Options;
      var current := start;
      visited, path := {start}, [start];
      var stopped := false;
      var step := 0;
      while step < config.dreamWalkLength && !stopped
        invariant path != [] && path[0] == start && path[|path| - 1] == current && visited == ToSet(path)
        invariant forall i {:trigger StepAt(num, config, nodes, graph, cycle, walk, path, i)} | 0 <= i < |path| - 1 ::
          StepAt(num, config, nodes, graph, cycle, walk, path, i)
        invariant step <= config.dreamWalkLength && |path| == step + 1
        invariant stopped ==> Options(nodes, graph, current) == {}
        decreases config.dreamWalkLength - step, !stopped
      {
        var options := Options(nodes, graph, current);
        if options == {} {
          stopped := true;
        } else {
          current := NextStop(current, options, cycle, walk, step);
          SetOfConcat(path, [current]);
          assert ToSet([current]) == {current};
          PathGrows(path, current, cycle, walk);
          path := path + [current];
          visited := visited + {current};
          step := step + 1;
        }
      }
    }

    lemma PathGrows(path: seq<NodeId>, next: NodeId, cycle: nat, walk: nat)
      requires path != [] && StepsTo(num, config, nodes, graph, cycle, walk, |path| - 1, path[|path| - 1], next)
      requires forall i {:trigger StepAt(num, config, nodes, graph, cycle, walk, path, i)} | 0 <= i < |path| - 1 ::
        StepAt(num, config, nodes, graph, cycle, walk, path, i)
      ensures forall i {:trigger StepAt(num, config, nodes, graph, cycle, walk, path + [next], i)} | 0 <= i < |path| ::
        StepAt(num, config, nodes, graph, cycle, walk, path + [next], i)
    {
      hide StepsTo;
      forall i | 0 <= i < |path|
        ensures StepAt(num, config, nodes, graph, cycle, walk, path + [next], i)
      {
        assert i < |path| - 1 ==> StepAt(num, config, nodes, graph, cycle, walk, path, i);
      }
    }

    method NextStop(current: NodeId, options: set<NodeId>, cycle: nat, walk: nat, step: nat) returns (next: NodeId)
      requires options != {} && options == Options(nodes, graph, current)
      ensures StepsTo(num, config, nodes, graph, cycle, walk, step, current, next)
    {
      hide Picks, StepWeights;
      var neighbors := Sorted(options);
      SortedKeys(options);
      assert forall i | 0 <= i < |neighbors| :: neighbors[i] in ToSet(neighbors);
      assert |options| > 0;
      var weights := WeighSteps(current, neighbors);
      SameLength(current, neighbors);
      var index := DeterministicChoice(weights, Nonce(num, cycle, walk, Some(step), Some(current)));
      PicksInside(weights, Nonce(num, cycle, walk, Some(step), Some(current)), index);
      next := neighbors[index];
    }

    lemma SameLength(current: NodeId, neighbors: seq<NodeId>)
      ensures |StepWeights(num, config, nodes, graph, current, neighbors)| == |neighbors|
    {
    }

    static lemma PicksInside(weights: seq<real>, raw: nat, index: nat)
      requires Picks(weights, raw, index)
      ensures index < |weights|
    {
    }

    /** Where walks may start, with their importance. */
    method Starts(rank: Row) returns (ids: seq<NodeId>, seeds: seq<real>)
      requires nodes != map[]
      ensures ids == Sorted(nodes.Keys) && ids != [] && seeds == Seeds(rank, ids)
      ensures forall i | 0 <= i < |ids| :: ids[i] in nodes
    {
      ids := Sorted(nodes.Keys);
      SortedKeys(nodes.Keys);
      assert |nodes.Keys| > 0;
      assert forall i | 0 <= i < |ids| :: ids[i] in ToSet(ids);
      seeds := seq(|ids|, i requires 0 <= i < |ids| => Max(Get(rank, ids[i]), 0.0));
    }

    /** One walk from a start its nonce picks by importance. */
    method WalkFrom(ids: seq<NodeId>, seeds: seq<real>, cycle: nat, ghost rank: Row, walk: nat)
      returns (seen: set<NodeId>, ghost path: seq<NodeId>)
      requires ids == Sorted(nodes.Keys) && ids != [] && seeds == Seeds(rank, ids)
      requires forall i | 0 <= i < |ids| :: ids[i] in nodes
      ensures seen <= nodes.Keys && seen == ToSet(path)
      ensures Taken(num, config, nodes, graph, cycle, rank, walk, path)
    {
      hide Picks, StepsTo, Seeds;
      var start := DeterministicChoice(seeds, Nonce(num, cycle, walk, None, None));
      PicksInside(seeds, Nonce(num, cycle, walk, None, None), start);
      seen, path := Walk(ids[start], cycle, walk);
      WalkFollowsEdges(num, config, nodes, graph, cycle, walk, path);
    }

    /** All walks of one cycle and the table of pairs they brought together. */
    method Walks(cycle: nat, rank: Row)
      returns (met: Pairs, visited: set<NodeId>, ghost walks: seq<set<NodeId>>, ghost paths: seq<seq<NodeId>>)
      requires nodes != map[]
      ensures |walks| == config.dreamWalks && met == MetOver(walks)
      ensures AllTaken(num, config, nodes, graph, cycle, rank, paths, walks)
      ensures Covers(walks, visited) && visited <= nodes.Keys
    {
      assert MetOver([]) == map[];
      hide MetOver, UpperPairs, PairsAdded, Taken, Seeds, WalkTaken;
      var ids, seeds := Starts(rank);
      NothingTaken(num, config, nodes, graph, cycle, rank);
      met, visited, walks, paths := map[], {}, [], [];
      for walk := 0 to config.dreamWalks
        invariant |walks| == |paths| == walk && met == MetOver(walks)
        invariant AllTaken(num, config, nodes, graph, cycle, rank, paths, walks)
        invariant Covers(walks, visited) && visited <= nodes.Keys
      {
        ghost var path;
        var seen;
        seen, path := WalkFrom(ids, seeds, cycle, rank, walk);
        MetOverSnoc(walks, seen);
        CoversMore(walks, visited, seen);
        OneMoreTaken(num, config, nodes, graph, cycle, rank, paths, walks, path);
        met := PairsAdded(met, UpperPairs(seen));
        visited := visited + seen;
        walks, paths := walks + [seen], paths + [path];
      }
    }

    lemma CountedIsValid(visits: Row, meetings: Pairs)
      requires Valid() && Countable(State(), visits, meetings)
      ensures num.Valid() && config.Valid(num.pi) && Inv(num, config, Counted(State(), visits, meetings))
    {
      CountKeeps(num, config, State(), visits, meetings);
    }

    method CountMeeting(p: (NodeId, NodeId), c: real)
      requires p.0 != p.1
      modifies this`visitCounts, this`coactivations
      ensures State() == Counted(old(State()), PairVisits(p, c), PairMeetings(p, c))
    {
      hide RowAdded, PairsAdded, PairVisits, PairMeetings;
      PairCounted(visitCounts, coactivations, p, c);
      visitCounts := visitCounts[p.0 := Get(visitCounts, p.0) + c];
      visitCounts := visitCounts[p.1 := Get(visitCounts, p.1) + c];
      coactivations := coactivations[p := Get(coactivations, p) + c];
      coactivations := coactivations[(p.1, p.0) := Get(coactivations, (p.1, p.0)) + c];
    }

    method MeetingStep(p: (NodeId, NodeId), c: real, ghost s: Store, ghost run: Run) returns (ghost next: Run)
      requires Valid() && p.0 in nodes && p.1 in nodes && p.0 != p.1 && c >= 0.0
      requires RunsFrom(num, config, s, run, State()) && Calm(run.steps)
      modifies this`visitCounts, this`coactivations
      ensures Valid() && RunsFrom(num, config, s, next, State()) && Calm(next.steps)
      ensures coactivations == PairsAdded(old(coactivations), PairMeetings(p, c))
      ensures visitCounts == RowAdded(old(visitCounts), PairVisits(p, c))
    {
      ghost var before := State();
      PairIsCountable(before, p, c);
      CountedIsValid(PairVisits(p, c), PairMeetings(p, c));
      TookCount(num, config, before, PairVisits(p, c), PairMeetings(p, c));
      CountMeeting(p, c);
      next := Extend(num, config, s, run, before, Count(PairVisits(p, c), PairMeetings(p, c)), State());
      CalmAppend(run.steps, Count(PairVisits(p, c), PairMeetings(p, c)));
    }

    /** Every pair's count goes to both nodes' visits and to both directions. */
    method ApplyMeetings(met: Pairs, ghost s: Store, ghost run: Run) returns (ghost next: Run)
      requires Valid() && RunsFrom(num, config, s, run, State()) && Calm(run.steps)
      requires forall p | p in met :: p.0 in nodes && p.1 in nodes && p.0 != p.1 && met[p] >= 0.0
      modifies this`visitCounts, this`coactivations
      ensures Valid() && RunsFrom(num, config, s, next, State()) && Calm(next.steps)
      ensures PairsGained(old(coactivations), coactivations, met, met.Keys)
      ensures VisitsGained(old(visitCounts), visitCounts, met, met.Keys)
    {
      hide Inv, RunsFrom, Calm, PairsGained, VisitsGained, RowAdded, PairsAdded, PairVisits, PairMeetings;
      var todo := met.Keys;
      next := run;
      ghost var done: set<(NodeId, NodeId)> := {};
      NothingGained(visitCounts, coactivations, met);
      while todo != {}
        invariant Valid() && RunsFrom(num, config, s, next, State()) && Calm(next.steps)
        invariant forall p | p in todo :: p in met && p !in done
        invariant forall p | p in met :: p in todo || p in done
        invariant done <= met.Keys
        invariant PairsGained(old(coactivations), coactivations, met, done)
        invariant VisitsGained(old(visitCounts), visitCounts, met, done)
        decreases |todo|
      {
        var p :| p in todo;
        MoreMeetings(old(coactivations), coactivations, met, done, p);
        MoreVisits(old(visitCounts), visitCounts, met, done, p);
        next := MeetingStep(p, met[p], s, next);
        todo, done := todo - {p}, done + {p};
      }
      assert done == met.Keys;
    }

    method RefreshStep(policy: Policy, ghost s: Store, ghost run: Run) returns (ghost next: Run, ghost total: real)
      requires Valid() && RunsFrom(num, config, s, run, State())
      modifies this`graph
      ensures Valid() && RunsFrom(num, config, s, next, State())
      ensures next.steps == run.steps + [Refresh(policy, total)]
      ensures total == TotalVisits(old(State())) + config.pmiEpsilon
      ensures State() == Refreshed(num, config, policy, old(State()), total)
    {
      hide Inv, RunsFrom, Refreshed;
      ghost var before := State();
      total := RefreshEdges(policy);
      TookRefresh(num, config, before, policy, total);
      next := Extend(num, config, s, run, before, Refresh(policy, total), State());
    }

    lemma StretchedIsValid(id: NodeId)
      requires Valid() && id in nodes
      ensures num.Valid() && config.Valid(num.pi)
      ensures Inv(num, config, State().(nodes := nodes[id := Stretched(config, nodes[id])]))
    {
      assert NodeOk(nodes[id], config.dimension);
      ReplaceKeeps(num, config, State(), id, Stretched(config, nodes[id]));
    }

    /** Longer memory for a node the dream visited. */
    method StretchStep(id: NodeId, ghost s: Store, ghost run: Run) returns (ghost next: Run)
      requires Valid() && id in nodes && RunsFrom(num, config, s, run, State()) && Calm(run.steps)
      modifies this`nodes
      ensures Valid() && RunsFrom(num, config, s, next, State()) && Calm(next.steps)
      ensures nodes == old(nodes)[id := Stretched(config, old(nodes)[id])]
    {
      hide Inv, RunsFrom, Stretched;
      ghost var before := State();
      var node := Stretched(config, nodes[id]);
      StretchedIsValid(id);
      TookStretch(num, config, before, id);
      nodes := nodes[id := node];
      next := Extend(num, config, s, run, before, Stretch(id), State());
      CalmAppend(run.steps, Stretch(id));
    }

    method StretchAll(visited: set<NodeId>, ghost s: Store, ghost run: Run) returns (ghost next: Run)
      requires Valid() && visited <= nodes.Keys && RunsFrom(num, config, s, run, State()) && Calm(run.steps)
      modifies this`nodes
      ensures Valid() && RunsFrom(num, config, s, next, State()) && Calm(next.steps)
      ensures nodes == AllStretched(config, old(nodes), visited)
    {
      hide Inv, RunsFrom, Calm, Stretched;
      var todo := visited;
      next := run;
      while todo != {}
        invariant Valid() && RunsFrom(num, config, s, next, State()) && Calm(next.steps)
        invariant todo <= visited && nodes == AllStretched(config, old(nodes), visited - todo)
        decreases |todo|
      {
        var id :| id in todo;
        OneMoreStretched(old(nodes), visited - todo, id);
        assert visited - todo + {id} == visited - (todo - {id});
        next := StretchStep(id, s, next);
        todo := todo - {id};
      }
      assert visited - {} == visited;
    }

    lemma OneMoreStretched(base: Nodes, done: set<NodeId>, id: NodeId)
      requires id in base && id !in done
      ensures id in AllStretched(config, base, done)
      ensures AllStretched(config, base, done)[id := Stretched(config, AllStretched(config, base, done)[id])]
           == AllStretched(config, base, done + {id})
    {
      hide Stretched;
    }

    // ----- Steps shared by observation and dreaming -----

    method ClockStep(now: real, ghost s: Store, ghost run: Run) returns (ghost next: Run)
      requires Valid() && RunsFrom(num, config, s, run, State())
      modifies this`logicalTime
      ensures Valid() && RunsFrom(num, config, s, next, State())
      ensures logicalTime == now && next.steps == run.steps + [Clock(now)]
    {
      ghost var before := State();
      TookClock(num, config, before, now);
      ClockIsValid(now);
      logicalTime := now;
      next := Extend(num, config, s, run, before, Clock(now), State());
    }

    lemma ClockIsValid(now: real)
      requires Valid()
      ensures Inv(num, config, State().(logicalTime := now))
    {
      ClockKeeps(num, config, State(), State().(logicalTime := now));
    }

    method EdgeDecayStep(now: real, ghost s: Store, ghost run: Run) returns (ghost next: Run)
      requires Valid() && RunsFrom(num, config, s, run, State())
      modifies this
      ensures Valid() && RunsFrom(num, config, s, next, State())
      ensures State() == EdgesDecayed(num, config, old(State()), now)
      ensures nodes == old(nodes) && absorbed == old(absorbed) && spawnCounter == old(spawnCounter)
      ensures logicalTime == old(logicalTime)
      ensures next.steps == run.steps + [Step.DecayEdges(now)]
    {
      ghost var before := State();
      TookDecayEdges(num, config, before, now);
      DecayEdges(now);
      next := Extend(num, config, s, run, before, Step.DecayEdges(now), State());
    }

    method CycleStep(ghost s: Store, ghost run: Run) returns (cycle: nat, ghost next: Run)
      requires Valid() && RunsFrom(num, config, s, run, State())
      modifies this`dreamCounter
      ensures Valid() && RunsFrom(num, config, s, next, State())
      ensures cycle == old(dreamCounter) && dreamCounter == NextCycle(cycle) && next.steps == run.steps + [BeginDream]
    {
      ghost var before := State();
      cycle := dreamCounter;
      var counter := if dreamCounter < U64_MAX then dreamCounter + 1 else U64_MAX;
      TookBeginDream(num, config, before, counter);
      CycleIsValid(counter);
      dreamCounter := counter;
      next := Extend(num, config, s, run, before, BeginDream, State());
    }

    lemma CycleIsValid(counter: nat)
      requires Valid()
      ensures Inv(num, config, State().(dreamCounter := counter))
    {
      ClockKeeps(num, config, State(), State().(dreamCounter := counter));
    }

    // ----- The dream -----

    method DreamPrelude(now: real) returns (cycle: nat, rank: Row, ghost run: Run)
      requires Valid() && nodes != map[]
      modifies this
      ensures Valid() && RunsFrom(num, config, old(State()), run, State())
      ensures run.steps == [Clock(Max(old(logicalTime), now)), Step.DecayEdges(now), BeginDream]
      ensures cycle == old(dreamCounter) && State() == Fallen(num, config, now, old(State()))
      ensures Important(config, old(nodes), graph, rank)
    {
      ghost var s := State();
      FallenKeeps(num, config, now, s);
      hide Inv, RunsFrom, EdgesDecayed, Important, Fallen;
      run := EmptyRun(num, config, s);
      run := ClockStep(Max(logicalTime, now), s, run);
      run := EdgeDecayStep(now, s, run);
      assert nodes.Keys != {};
      rank := Prominence(nodes.Keys);
      cycle, run := CycleStep(s, run);
    }

    /** Everything before the refresh: decay, walks, and their counts. */
    method DreamWalks(now: real) returns (visited: set<NodeId>, ghost d: Dream, ghost run: Run)
      requires Valid() && nodes != map[]
      modifies this
      ensures Valid() && RunsFrom(num, config, old(State()), run, State()) && Calm(run.steps)
      ensures Walked(num, config, now, old(State()), d) && visited == d.visited && State() == d.walked
    {
      hide Inv, RunsFrom, MetOver, Fallen, PairsGained, VisitsGained, Covers, Important, AllTaken;
      ghost var s := State();
      var cycle, rank;
      cycle, rank, run := DreamPrelude(now);
      FallenKeeps(num, config, now, s);
      var met: Pairs;
      ghost var walks, paths;
      met, visited, walks, paths := Walks(cycle, rank);
      MetIsCountable(met, visited, walks);
      run := ApplyMeetings(met, s, run);
      d := Dream(rank, paths, walks, visited, State(), 0.0, State());
    }

    lemma MetIsCountable(met: Pairs, visited: set<NodeId>, walks: seq<set<NodeId>>)
      requires met == MetOver(walks) && Covers(walks, visited)
      ensures forall p | p in met :: p.0 in visited && p.1 in visited && p.0 != p.1 && met[p] >= 0.0
    {
      forall p | p in met
        ensures p.0 in visited && p.1 in visited && p.0 != p.1 && met[p] >= 0.0
      {
        assert p == (p.0, p.1);
        MetOverCounts(walks, p.0, p.1);
        MetAreVisited(walks, visited, p.0, p.1);
      }
    }

    method DreamBody(now: real, policy: Policy) returns (visited: set<NodeId>, ghost d: Dream, ghost run: Run)
      requires Valid() && nodes != map[]
      modifies this
      ensures Valid() && RunsFrom(num, config, old(State()), run, State()) && Calm(run.steps)
      ensures Walked(num, config, now, old(State()), d) && Relearned(num, config, policy, d)
      ensures visited == d.visited && State() == d.dreamt && nodes.Keys == old(nodes).Keys
    {
      hide Inv, RunsFrom, Calm, Fallen, PairsGained, VisitsGained, Covers, MetOver, Important, AllTaken;
      ghost var s := State();
      visited, d, run := DreamWalks(now);
      FallenKeeps(num, config, now, s);
      ghost var before, total := run, 0.0;
      run, total := RefreshStep(policy, s, run);
      CalmAppend(before.steps, Refresh(policy, total));
      RefreshKeepsNodes(policy, d.walked, total);
      run := StretchAll(visited, s, run);
      d := d.(total := total, dreamt := State());
    }

    lemma RefreshKeepsNodes(policy: Policy, s: Store, total: real)
      ensures Refreshed(num, config, policy, s, total) == s.(graph := Refreshed(num, config, policy, s, total).graph)
    {
    }

    /** Consolidation appended to a run already under way. */
    method ConsolidateStep(policy: Policy, ghost s: Store, ghost run: Run)
      returns (merges: nat, ghost next: Run, ghost pass: seq<Step>)
      requires Valid() && RunsFrom(num, config, s, run, State())
      modifies this`nodes, this`absorbed, this`graph, this`visitCounts, this`coactivations
      ensures Valid() && RunsFrom(num, config, s, next, State()) && next.steps == run.steps + pass
      ensures pass == PassSteps(num, config, policy, old(State())) && OnlyMerges(pass) && PairsApart(pass)
        && |pass| == merges
      ensures PassOutcome(old(State()), pass, State())
      ensures Reaches(num, config, old(State()), pass, State()) && Conserved(old(State()), pass, State())
      ensures Calm(run.steps) ==> Calm(next.steps)
      ensures |nodes| + merges == |old(nodes)| && |absorbed| == |old(absorbed)| + merges
    {
      hide Inv, RunsFrom, PassOutcome, PairsApart, PartnersOnly, Conserved, Reaches;
      ghost var middle, added := State(), run;
      merges, added := ConsolidateWithPolicy(policy);
      pass := added.steps;
      MergesAreCalm(pass);
      if Calm(run.steps) { CalmConcat(run.steps, pass); }
      next := Join(num, config, s, run, middle, added, State());
    }

    /** Walk, count, learn and stretch, then consolidate; nothing to walk, nothing done. */
    method DreamWithPolicy(now: real, policy: Policy)
      returns (report: MaintenanceReport, ghost run: Run, ghost d: Option<Dream>, ghost pass: seq<Step>)
      requires Valid()
      modifies this
      ensures Valid() && RunsFrom(num, config, old(State()), run, State()) && Calm(run.steps)
      ensures DreamEnds(num, config, policy, now, old(State()), d, pass, State())
      ensures report == MaintenanceReport(|pass|, 0, WalksOf(config, d), VisitedOf(d))
      ensures |nodes| + report.merges == |old(nodes)|
    {
      hide Inv, RunsFrom, PassOutcome, PairsApart, Walked, Relearned, Conserved, Reaches, PassSteps;
      ghost var s := State();
      if |nodes| < 2 || config.dreamWalks == 0 {
        run := EmptyRun(num, config, s);
        return MaintenanceReport(0, 0, 0, 0), run, None, [];
      }
      var visited, merges;
      ghost var dream;
      visited, dream, run := DreamBody(now, policy);
      SameSize(s.nodes, nodes);
      merges, run, pass := ConsolidateStep(policy, s, run);
      d := Some(dream);
      report := MaintenanceReport(merges, 0, config.dreamWalks, |visited|);
    }

    // ----- Maintenance -----

    /** Consolidation passes, each the one decided on the store it starts from,
        until one merges nothing or the rounds are used up. */
    method ConsolidateRounds(policy: Policy, maximumRounds: nat, ghost s: Store, ghost run: Run)
      returns (merges: nat, ghost next: Run, ghost rounds: Rounds)
      requires Valid() && RunsFrom(num, config, s, run, State())
      modifies this`nodes, this`absorbed, this`graph, this`visitCounts, this`coactivations
      ensures Valid() && RunsFrom(num, config, s, next, State())
      ensures Consolidated(num, config, policy, maximumRounds, old(State()), rounds, State())
      ensures next.steps == run.steps + RoundSteps(num, config, policy, rounds)
      ensures Whole(rounds.sizes) == merges && |nodes| + merges == |old(nodes)|
    {
      hide Inv, RunsFrom, PassOutcome, PairsApart, Calm, PassSteps, Whole, Conserved, Reaches, RoundAt, RoundSteps,
        Rounded;
      ghost var start := State();
      merges, next, rounds := 0, run, Rounds([start], []);
      NoRounds(num, config, policy, start);
      assert run.steps + [] == run.steps;
      var round, idle := 0, false;
      while round < maximumRounds && !idle
        invariant Valid() && RunsFrom(num, config, s, next, State())
        invariant Rounded(num, config, policy, start, rounds, State())
        invariant next.steps == run.steps + RoundSteps(num, config, policy, rounds) && merges == Whole(rounds.sizes)
        invariant |rounds.sizes| == round <= maximumRounds
        invariant idle <==> rounds.sizes != [] && rounds.sizes[|rounds.sizes| - 1] == 0
        invariant forall i | 0 <= i < |rounds.sizes| - 1 :: rounds.sizes[i] > 0
        invariant |nodes| + merges == |old(nodes)|
        decreases maximumRounds - round
      {
        var merged;
        ghost var pass, before := [], State();
        merged, next, pass := ConsolidateStep(policy, s, next);
        OneMoreRound(num, config, policy, start, rounds, before, State());
        rounds := Rounds(rounds.stores + [State()], rounds.sizes + [merged]);
        merges := merges + merged;
        idle, round := merged == 0, round + 1;
      }
    }

    method PruneStep(now: real, protected: set<NodeId>, ghost s: Store, ghost run: Run)
      returns (pruned: nat, ghost next: Run, ghost pass: seq<Step>)
      requires Valid() && RunsFrom(num, config, s, run, State())
      modifies this`nodes, this`graph, this`visitCounts, this`coactivations
      ensures Valid() && RunsFrom(num, config, s, next, State()) && next.steps == run.steps + pass
      ensures State() == PrunedStore(num, config, old(State()), now, protected)
      ensures |nodes| + pruned == |old(nodes)|
    {
      hide Inv, RunsFrom, PrunedStore;
      ghost var middle, added := State(), run;
      pruned, added := PrunePassProtected(now, protected);
      pass := added.steps;
      next := Join(num, config, s, run, middle, added, State());
    }

    method DreamStep(now: real, policy: Policy, ghost s: Store, ghost run: Run)
      returns (report: MaintenanceReport, ghost next: Run, ghost d: Option<Dream>, ghost pass: seq<Step>,
               ghost steps: seq<Step>)
      requires Valid() && RunsFrom(num, config, s, run, State())
      modifies this
      ensures Valid() && RunsFrom(num, config, s, next, State()) && next.steps == run.steps + steps && Calm(steps)
      ensures DreamEnds(num, config, policy, now, old(State()), d, pass, State())
      ensures report == MaintenanceReport(|pass|, 0, WalksOf(config, d), VisitedOf(d))
      ensures |nodes| + report.merges == |old(nodes)|
    {
      hide Inv, RunsFrom, DreamEnds, WalksOf, VisitedOf;
      ghost var middle, added := State(), run;
      report, added, d, pass := DreamWithPolicy(now, policy);
      steps := added.steps;
      next := Join(num, config, s, run, middle, added, State());
    }

    /** Consolidate, prune, dream, consolidate, in that order: the report counts
        every node lost, every walk and every node visited. */
    method MaintainUsingPolicy(now: real, maximumRounds: nat, protected: set<NodeId>, policy: Policy)
      returns (report: MaintenanceReport, ghost run: Run, ghost m: Maintenance, ghost pruning: seq<Step>,
               ghost dreaming: seq<Step>)
      requires Valid()
      modifies this
      ensures Valid() && RunsFrom(num, config, old(State()), run, State())
      ensures Maintained(num, config, policy, now, maximumRounds, protected, old(State()), m, State())
      ensures run.steps == RoundSteps(num, config, policy, m.before) + pruning + dreaming
        + RoundSteps(num, config, policy, m.after)
      ensures Calm(dreaming)
      ensures report.merges == Whole(m.before.sizes) + |m.pass| + Whole(m.after.sizes)
      ensures report.walksCompleted == WalksOf(config, m.dream) && report.nodesReactivated == VisitedOf(m.dream)
      ensures |m.kept.nodes| + report.pruned + Whole(m.before.sizes) == |old(nodes)|
      ensures |nodes| + report.merges + report.pruned == |old(nodes)|
    {
      hide Inv, RunsFrom, PrunedStore, DreamEnds, WalksOf, VisitedOf, Calm, RoundsOk, Rounded, RoundSteps, Whole;
      ghost var s := State();
      ghost var first, last, d, pass;
      run := EmptyRun(num, config, s);
      var before, pruned, dream, after;
      before, run, first := ConsolidateRounds(policy, maximumRounds, s, run);
      ghost var rounded := State();
      LastStore(policy, s, first, rounded);
      pruned, run, pruning := PruneStep(now, protected, s, run);
      ghost var kept := State();
      dream, run, d, pass, dreaming := DreamStep(now, policy, s, run);
      ghost var rested := State();
      after, run, last := ConsolidateRounds(policy, maximumRounds, s, run);
      LastStore(policy, rested, last, State());
      m := Maintenance(first, kept, d, pass, rested, last);
      report := MaintenanceReport(before + dream.merges + after, pruned, dream.walksCompleted, dream.nodesReactivated);
    }

    lemma LastStore(policy: Policy, s: Store, r: Rounds, t: Store)
      requires Rounded(num, config, policy, s, r, t)
      ensures r.stores != [] && r.stores[|r.stores| - 1] == t
    {
    }

    // ----- Observing -----

    lemma ReplacedIsValid(id: NodeId, node: MemoryNode)
      requires Valid() && id in nodes && NodeOk(node, config.dimension)
      requires node.children == nodes[id].children && ToSet(nodes[id].eventIds) <= ToSet(node.eventIds)
      ensures Inv(num, config, State().(nodes := nodes[id := node]))
    {
      ReplaceKeeps(num, config, State(), id, node);
    }

    lemma ActiveIsOk(id: NodeId)
      requires Valid() && id in nodes
      ensures NodeOk(nodes[id], config.dimension)
    {
    }

    method ReinforceStep(id: NodeId, o: Observation, input: Vector, similarity: real, now: real, ghost s: Store,
                         ghost run: Run)
      returns (ghost next: Run)
      requires Valid() && id in nodes && |input| == config.dimension && RunsFrom(num, config, s, run, State())
      modifies this`nodes
      ensures Valid() && RunsFrom(num, config, s, next, State())
      ensures nodes == old(nodes)[id := Reinforced(num, config, old(nodes)[id], o.eventId, input, similarity, now,
                                                   o.source)]
      ensures next.steps == run.steps + [Reinforce(id, o.eventId, input, similarity, now, o.source)]
    {
      ghost var before := State();
      ActiveIsOk(id);
      ReinforcedIsOk(num, config, nodes[id], o.eventId, input, similarity, now, o.source);
      TookReinforce(num, config, before, id, o.eventId, input, similarity, now, o.source);
      var node := Reinforced(num, config, nodes[id], o.eventId, input, similarity, now, o.source);
      ReplacedIsValid(id, node);
      nodes := nodes[id := node];
      next := Extend(num, config, s, run, before, Reinforce(id, o.eventId, input, similarity, now, o.source), State());
    }

    method AnnotateStep(id: NodeId, metadata: map<string, string>, ghost s: Store, ghost run: Run)
      returns (ghost next: Run)
      requires Valid() && id in nodes && RunsFrom(num, config, s, run, State())
      modifies this`nodes
      ensures Valid() && RunsFrom(num, config, s, next, State())
      ensures nodes == old(nodes)[id := Annotated(old(nodes)[id], metadata)]
      ensures next.steps == run.steps + [Annotate(id, metadata)]
    {
      ghost var before := State();
      ActiveIsOk(id);
      TookAnnotate(num, config, before, id, metadata);
      ReplacedIsValid(id, Annotated(nodes[id], metadata));
      nodes := nodes[id := Annotated(nodes[id], metadata)];
      next := Extend(num, config, s, run, before, Annotate(id, metadata), State());
    }

    method RelieveStep(id: NodeId, bayesian: bool, ghost s: Store, ghost run: Run) returns (ghost next: Run)
      requires Valid() && id in nodes && RunsFrom(num, config, s, run, State())
      modifies this`nodes
      ensures Valid() && RunsFrom(num, config, s, next, State())
      ensures nodes == old(nodes)[id := Relieved(num, config, old(nodes)[id], bayesian)]
      ensures next.steps == run.steps + [Relieve(id, bayesian)]
    {
      ghost var before := State();
      ActiveIsOk(id);
      RelievedIsOk(num, config, nodes[id], bayesian);
      TookRelieve(num, config, before, id, bayesian);
      ReplacedIsValid(id, Relieved(num, config, nodes[id], bayesian));
      nodes := nodes[id := Relieved(num, config, nodes[id], bayesian)];
      next := Extend(num, config, s, run, before, Relieve(id, bayesian), State());
    }

    method SpawnStep(event: EventId, input: Vector, now: real, source: Option<string>, metadata: map<string, string>,
                     ghost s: Store, ghost run: Run) returns (id: NodeId, ghost next: Run)
      requires Valid() && |input| == config.dimension && RunsFrom(num, config, s, run, State())
      modifies this`nodes, this`graph, this`visitCounts, this`spawnCounter
      ensures Valid() && RunsFrom(num, config, s, next, State())
      ensures id == num.nodeHash(event, old(spawnCounter)) && id !in old(nodes)
      ensures nodes == old(nodes)[id := Fresh(num, config, id, event, input, now, source, metadata)]
      ensures next.steps == run.steps + [Step.Spawn(event, input, now, source, metadata)]
    {
      ghost var before := State();
      TookSpawn(num, config, before, event, input, now, source, metadata);
      id := Spawn(event, input, now, source, metadata);
      next := Extend(num, config, s, run, before, Step.Spawn(event, input, now, source, metadata), State());
    }

    method CoactivationStep(ids: seq<NodeId>, ghost s: Store, ghost run: Run) returns (ghost next: Run)
      requires Valid() && Distinct(ids) && ToSet(ids) <= nodes.Keys && RunsFrom(num, config, s, run, State())
      modifies this`visitCounts, this`coactivations
      ensures Valid() && RunsFrom(num, config, s, next, State())
      ensures next.steps == run.steps + [CountStep(ids)]
    {
      ghost var before := State();
      TogetherKeeps(num, config, before, ToSet(ids));
      TookCount(num, config, before, Once(ToSet(ids)), Together(ToSet(ids)));
      RecordCoactivation(ids);
      next := Extend(num, config, s, run, before, CountStep(ids), State());
    }

    /** One visit for a node just spawned. */
    method VisitStep(id: NodeId, ghost s: Store, ghost run: Run) returns (ghost next: Run)
      requires Valid() && id in nodes && RunsFrom(num, config, s, run, State())
      modifies this`visitCounts
      ensures Valid() && RunsFrom(num, config, s, next, State())
      ensures next.steps == run.steps + [Count(Once({id}), map[])]
    {
      hide Inv, RunsFrom, Counted, Countable, Once;
      ghost var before := State();
      OneIsCountable(before, id);
      CountedIsValid(Once({id}), map[]);
      TookCount(num, config, before, Once({id}), map[]);
      OneVisit(before, id);
      visitCounts := visitCounts[id := Get(visitCounts, id) + 1.0];
      next := Extend(num, config, s, run, before, Count(Once({id}), map[]), State());
    }

    static lemma OneIsCountable(s: Store, id: NodeId)
      requires id in s.nodes
      ensures Countable(s, Once({id}), map[])
    {
    }

    lemma OneVisit(s: Store, id: NodeId)
      ensures s.(visitCounts := s.visitCounts[id := Get(s.visitCounts, id) + 1.0]) == Counted(s, Once({id}), map[])
    {
    }

    /** No node reached the threshold. */
    method ObserveNew(o: Observation, input: Vector, now: real, coactivated: seq<NodeId>, ghost s: Store,
                      ghost run: Run)
      returns (id: NodeId, ghost next: Run)
      requires Valid() && |input| == config.dimension && RunsFrom(num, config, s, run, State())
      requires Distinct(coactivated) && ToSet(coactivated) <= nodes.Keys
      modifies this
      ensures Valid() && RunsFrom(num, config, s, next, State())
      ensures id !in old(nodes) && id in nodes && o.eventId in nodes[id].eventIds
      ensures nodes == old(nodes)[id := Fresh(num, config, id, o.eventId, input, now, o.source, o.metadata)]
      ensures next.steps == run.steps + NewNodeSteps(num, old(spawnCounter), o, input, now, coactivated)
    {
      hide Inv, RunsFrom, CountStep;
      next := CoactivationStep(coactivated, s, run);
      id, next := SpawnStep(o.eventId, input, now, o.source, o.metadata, s, next);
      next := VisitStep(id, s, next);
    }

    /** The parent is relieved of its tension, which becomes a node of its own. */
    method SplitOff(winner: NodeId, bayesian: bool, o: Observation, input: Vector, now: real, ghost s: Store,
                    ghost run: Run)
      returns (id: NodeId, ghost next: Run)
      requires Valid() && winner in nodes && nodes[winner].tension.Some? && |input| == config.dimension
      requires RunsFrom(num, config, s, run, State())
      modifies this`nodes, this`graph, this`visitCounts, this`spawnCounter
      ensures Valid() && RunsFrom(num, config, s, next, State())
      ensures nodes.Keys == old(nodes).Keys + {id} && id !in old(nodes)
      ensures forall other | other in old(nodes) && other != winner :: nodes[other] == old(nodes)[other]
      ensures nodes[winner] == Relieved(num, config, old(nodes)[winner], bayesian) && o.eventId in nodes[id].eventIds
      ensures nodes[id] == Fresh(num, config, id, o.eventId,
        SplitVector(num, config, old(nodes)[winner].tension.value, input, bayesian), now, o.source, map[])
      ensures next.steps == run.steps
        + [Relieve(winner, bayesian),
           Step.Spawn(o.eventId, SplitVector(num, config, old(nodes)[winner].tension.value, input, bayesian), now,
                      o.source, map[])]
    {
      hide Inv, RunsFrom, Relieved, SplitVector, Numerics.Valid, Config.Valid;
      SplitFits(winner, input, bayesian);
      var spawnVector := SplitVector(num, config, nodes[winner].tension.value, input, bayesian);
      next := RelieveStep(winner, bayesian, s, run);
      id, next := SpawnStep(o.eventId, spawnVector, now, o.source, map[], s, next);
    }

    lemma SplitFits(winner: NodeId, input: Vector, bayesian: bool)
      requires Valid() && winner in nodes && nodes[winner].tension.Some? && |input| == config.dimension
      ensures |SplitVector(num, config, nodes[winner].tension.value, input, bayesian)| == config.dimension
    {
      ActiveIsOk(winner);
      hide Inv;
    }

    /** The winner's tension may split off a node of its own, or be cleared. */
    method PromoteIfTension(winner: NodeId, o: Observation, input: Vector, now: real, ghost s: Store, ghost run: Run)
      returns (promoted: Option<NodeId>, ghost next: Run)
      requires Valid() && winner in nodes && |input| == config.dimension && RunsFrom(num, config, s, run, State())
      modifies this`nodes, this`graph, this`visitCounts, this`spawnCounter
      ensures Valid() && RunsFrom(num, config, s, next, State())
      ensures promoted.Some? <==> DueToSplit(num, config, old(nodes)[winner])
      ensures Settles(num, config, old(nodes).Keys, winner, old(nodes)[winner], o.eventId, input, now, o.source,
                      if promoted.Some? then promoted.value else winner, nodes)
      ensures forall id | id in old(nodes) && id != winner :: nodes[id] == old(nodes)[id]
      ensures nodes[winner].eventIds == old(nodes)[winner].eventIds
      ensures promoted.Some? ==> o.eventId in nodes[promoted.value].eventIds
      ensures next.steps == run.steps + PromotionSteps(num, config, winner, old(nodes)[winner], o, input, now)
    {
      hide Inv, RunsFrom, Valid, State, Dot, Reinforced, SplitVector, DueToSplit, DueToClear, Fresh, Relieved;
      hide Promotion, IsNew, HandsOver, SplitsAt, Numerics.Valid, Config.Valid;
      var node := nodes[winner];
      promoted, next := None, run;
      PromotionFacts(node);
      match Promotion(num, config, node)
      case Keep =>
      case Clear =>
        next := RelieveStep(winner, false, s, run);
      case Split(bayesian) =>
        var id;
        id, next := SplitOff(winner, bayesian, o, input, now, s, run);
        SplitSettles(num, config, old(nodes).Keys, winner, node, o.eventId, input, now, o.source, id, nodes);
        promoted := Some(id);
    }

    lemma PromotionFacts(node: MemoryNode)
      requires Valid()
      ensures config.Valid(num.pi) && num.Valid()
      ensures DueToSplit(num, config, node) ==> node.tension.Some?
      ensures match Promotion(num, config, node)
        case Keep => !DueToSplit(num, config, node) && !DueToClear(num, config, node)
        case Clear => !DueToSplit(num, config, node) && DueToClear(num, config, node)
          && Relieved(num, config, node, false) == node.(tension := None, atypicalCount := 0)
        case Split(bayesian) =>
          && DueToSplit(num, config, node) && node.tension.Some?
          && (bayesian <==> node.tension.value.evidenceCount >= config.minimumTensionEvidence)
      ensures forall bayesian :: Relieved(num, config, node, bayesian).eventIds == node.eventIds
    {
      PromotionExactly(num, config, node);
      hide Inv;
      if node.tension.Some? {
        RelievedExactly(num, config, node);
      }
    }

    /** The secondary updates; `all` lists the steps they take. */
    method ReinforceOthers(ids: seq<NodeId>, similarities: seq<real>, o: Observation, input: Vector, now: real,
                           ghost all: seq<Step>, ghost s: Store, ghost run: Run) returns (ghost next: Run)
      requires Valid() && |input| == config.dimension && RunsFrom(num, config, s, run, State())
      requires |similarities| == |all| == |ids| && Distinct(ids) && forall i | 0 <= i < |ids| :: ids[i] in nodes
      requires forall i | 0 <= i < |ids| ::
        all[i] == Reinforce(ids[i], o.eventId, input, similarities[i], now, o.source)
      modifies this`nodes
      ensures Valid() && RunsFrom(num, config, s, next, State()) && nodes.Keys == old(nodes).Keys
      ensures forall id | id in nodes && id !in ids :: nodes[id] == old(nodes)[id]
      ensures forall i | 0 <= i < |ids| ::
        nodes[ids[i]] == Reinforced(num, config, old(nodes)[ids[i]], o.eventId, input, similarities[i], now, o.source)
      ensures next.steps == run.steps + all
    {
      hide Inv, RunsFrom, Reinforced;
      next := run;
      for i := 0 to |ids|
        invariant Valid() && RunsFrom(num, config, s, next, State()) && nodes.Keys == old(nodes).Keys
        invariant forall id | id in nodes && id !in ids :: nodes[id] == old(nodes)[id]
        invariant forall k | i <= k < |ids| :: nodes[ids[k]] == old(nodes)[ids[k]]
        invariant forall k | 0 <= k < i ::
          nodes[ids[k]] == Reinforced(num, config, old(nodes)[ids[k]], o.eventId, input, similarities[k], now, o.source)
        invariant next.steps == run.steps + all[..i]
      {
        next := ReinforceStep(ids[i], o, input, similarities[i], now, s, next);
        Snoc(run.steps, all, i);
      }
      assert all[..|ids|] == all;
    }

    lemma Snoc(base: seq<Step>, all: seq<Step>, i: nat)
      requires i < |all|
      ensures base + all[..i] + [all[i]] == base + all[..i + 1]
    {
    }

    /** The winner absorbs the observation. */
    method AbsorbStep(winner: NodeId, o: Observation, input: Vector, now: real, ghost s: Store, ghost run: Run)
      returns (ghost next: Run)
      requires Valid() && winner in nodes && |input| == config.dimension && RunsFrom(num, config, s, run, State())
      modifies this`nodes
      ensures Valid() && RunsFrom(num, config, s, next, State())
      ensures nodes == old(nodes)[winner := Absorbed(num, config, old(nodes)[winner], o, input, now)]
      ensures next.steps == run.steps + AbsorbSteps(winner, old(nodes)[winner], o, input, now)
    {
      hide Inv, RunsFrom, Valid, State, Dot, Reinforced;
      next := ReinforceStep(winner, o, input, Dot(nodes[winner].centroid, input), now, s, run);
      next := AnnotateStep(winner, o.metadata, s, next);
    }

    lemma AbsorbedHolds(winner: NodeId, o: Observation, input: Vector, now: real)
      requires Valid() && winner in nodes && |input| == config.dimension
      ensures o.eventId in Absorbed(num, config, nodes[winner], o, input, now).eventIds
    {
      ActiveIsOk(winner);
      AbsorbedRecords(num, config, nodes[winner], o, input, now);
    }

    method UpdateWinner(winner: NodeId, o: Observation, input: Vector, now: real, ghost s: Store, ghost run: Run)
      returns (holder: NodeId, ghost next: Run)
      requires Valid() && winner in nodes && |input| == config.dimension && RunsFrom(num, config, s, run, State())
      modifies this`nodes, this`graph, this`visitCounts, this`spawnCounter
      ensures Valid() && RunsFrom(num, config, s, next, State())
      ensures holder in nodes && o.eventId in nodes[holder].eventIds
      ensures holder == winner || holder !in old(nodes)
      ensures Settles(num, config, old(nodes).Keys, winner, Absorbed(num, config, old(nodes)[winner], o, input, now),
                      o.eventId, input, now, o.source, holder, nodes)
      ensures forall id | id in old(nodes) && id != winner :: nodes[id] == old(nodes)[id]
      ensures next.steps == run.steps + AbsorbSteps(winner, old(nodes)[winner], o, input, now)
        + PromotionSteps(num, config, winner, Absorbed(num, config, old(nodes)[winner], o, input, now), o, input, now)
    {
      hide Inv, RunsFrom, Valid, State, Dot, Absorbed, AbsorbSteps, PromotionSteps, Promotion;
      ghost var before := nodes[winner];
      AbsorbedHolds(winner, o, input, now);
      next := AbsorbStep(winner, o, input, now, s, run);
      assert nodes[winner] == Absorbed(num, config, before, o, input, now);
      var promoted;
      promoted, next := PromoteIfTension(winner, o, input, now, s, next);
      holder := if promoted.Some? then promoted.value else winner;
    }

    method ObserveKnown(candidates: seq<NodeId>, coactivated: seq<NodeId>, o: Observation, input: Vector, now: real,
                        policy: Policy, ghost s: Store, ghost run: Run) returns (holder: NodeId, ghost next: Run)
      requires Valid() && |input| == config.dimension && RunsFrom(num, config, s, run, State())
      requires candidates != [] && Distinct(candidates) && ToSet(candidates) <= nodes.Keys && candidates[0] in nodes
      requires Distinct(coactivated) && ToSet(coactivated) <= nodes.Keys
      modifies this
      ensures Valid() && RunsFrom(num, config, s, next, State())
      ensures holder in nodes && o.eventId in nodes[holder].eventIds
      ensures Settles(num, config, old(nodes).Keys, candidates[0],
                      Absorbed(num, config, old(nodes)[candidates[0]], o, input, now), o.eventId, input, now, o.source,
                      holder, nodes)
      ensures nodes.Keys == old(nodes).Keys + {holder}
      ensures OthersFollow(num, config, policy, old(nodes), candidates, o, input, now, nodes)
      ensures next.steps == run.steps
        + KnownNodeSteps(num, config, policy, old(nodes), o, input, now, candidates, coactivated)
    {
      hide Inv, RunsFrom, Valid, State, Dot, Absorbed, AbsorbSteps, PromotionSteps, CountStep, KnownNodeSteps,
        Secondary, Annotated;
      KnownStepsListed(run.steps, num, config, policy, nodes, o, input, now, candidates, coactivated);
      var secondary := Secondary(policy, candidates);
      var base := nodes;
      SecondaryAreOthers(policy, candidates);
      var similarities := Closeness(base, secondary, input);
      holder, next := UpdateWinner(candidates[0], o, input, now, s, run);
      ghost var settled := nodes;
      next := ReinforceOthers(secondary, similarities, o, input, now,
                              Reinforcements(base, secondary, o, input, now), s, next);
      SettlesStill(num, config, base.Keys, candidates[0], Absorbed(num, config, base[candidates[0]], o, input, now),
                   o.eventId, input, now, o.source, holder, settled, nodes);
      Followed(policy, base, candidates, o, input, now, settled, nodes);
      next := CoactivationStep(coactivated, s, next);
    }

    lemma Followed(policy: Policy, base: Nodes, candidates: seq<NodeId>, o: Observation, input: Vector, now: real,
                   settled: Nodes, after: Nodes)
      requires candidates != [] && settled.Keys == after.Keys
      requires forall id | id in base && id != candidates[0] :: id in settled && settled[id] == base[id]
      requires forall id | id in after && id !in Secondary(policy, candidates) :: after[id] == settled[id]
      requires var ids := Secondary(policy, candidates);
        forall i | 0 <= i < |ids| ::
        && ids[i] in base && ids[i] in after && ids[i] in settled
        && after[ids[i]] == Reinforced(num, config, settled[ids[i]], o.eventId, input,
                                       Closeness(base, ids, input)[i], now, o.source)
      requires candidates[0] !in Secondary(policy, candidates)
      ensures OthersFollow(num, config, policy, base, candidates, o, input, now, after)
    {
      hide Secondary, Reinforced, Dot;
    }

    /** Decay everything to the time of the observation. */
    method ObservePrelude(now: real) returns (ghost run: Run)
      requires Valid()
      modifies this
      ensures Valid() && RunsFrom(num, config, old(State()), run, State())
      ensures run.steps == [Clock(now), Step.DecayEdges(now), Step.DecayNodes(now)]
      ensures nodes == NodesDecayed(num, config, old(State()), now).nodes && spawnCounter == old(spawnCounter)
    {
      ghost var s := State();
      run := EmptyRun(num, config, s);
      run := ClockStep(now, s, run);
      run := EdgeDecayStep(now, s, run);
      ghost var middle, decay := State(), run;
      decay := DecayStep(now);
      run := Join(num, config, s, run, middle, decay, State());
    }

    /** Branch on whether any node is close enough. */
    method ObserveInto(o: Observation, input: Vector, now: real, policy: Policy, ghost s: Store, ghost run: Run)
      returns (holder: NodeId, ghost next: Run)
      requires Valid() && |input| == config.dimension && RunsFrom(num, config, s, run, State())
      modifies this
      ensures Valid() && RunsFrom(num, config, s, next, State())
      ensures holder in nodes && o.eventId in nodes[holder].eventIds
      ensures TakesIn(num, config, policy, old(nodes), o, input, now, holder, nodes)
      ensures next.steps == run.steps
        + ObservationSteps(num, config, policy, old(nodes), old(spawnCounter), o, input, now)
    {
      hide Inv, RunsFrom, Valid, State, Candidates, Coactivated, NewNodeSteps, KnownNodeSteps, Settles, OthersFollow;
      hide Fresh, IsNew, Absorbed;
      ConfigIsValid();
      var candidates := Candidates(num, config, policy, nodes, input, o.source);
      var coactivated := Coactivated(num, config, policy, nodes, input, candidates);
      CandidatesAreActive(num, config, policy, nodes, input, o.source);
      CoactivatedAreActive(num, config, policy, nodes, input, candidates);
      if candidates == [] {
        holder, next := ObserveNew(o, input, now, coactivated, s, run);
        FreshIsNew(num, config, holder, o.eventId, input, now, o.source, o.metadata);
      } else {
        assert candidates[0] in ToSet(candidates);
        holder, next := ObserveKnown(candidates, coactivated, o, input, now, policy, s, run);
      }
    }

    lemma ConfigIsValid()
      requires Valid()
      ensures num.Valid() && config.Valid(num.pi)
    {
      hide Inv;
    }

    /** Everything an accepted observation does. */
    method Observe(o: Observation, input: Vector, now: real, policy: Policy)
      returns (holder: NodeId, ghost run: Run, ghost total: real)
      requires Valid() && |input| == config.dimension
      modifies this
      ensures Valid() && RunsFrom(num, config, old(State()), run, State())
      ensures holder in nodes && o.eventId in nodes[holder].eventIds
      ensures TakesIn(num, config, policy, NodesDecayed(num, config, old(State()), now).nodes, o, input, now, holder,
                      nodes)
      ensures run.steps == UpdateSteps(num, config, policy, old(State()), o, input, now, total)
    {
      hide Inv, RunsFrom, Valid, ObservationSteps, NodesDecayed, TakesIn;
      ghost var s := State();
      run := ObservePrelude(now);
      ghost var decayed, counter := nodes, spawnCounter;
      holder, run := ObserveInto(o, input, now, policy, s, run);
      run, total := RefreshStep(policy, s, run);
    }

    /** The checks an observation must pass before anything changes. */
    predicate Acceptable(o: Observation, policy: Policy) {
      && policy.Valid(num.pi) && |o.vector| == config.dimension
      && num.norm(num.unit(o.vector, config.eps)) >= config.eps
    }

    lemma UpdateEvidence(s: Store, o: Observation, policy: Policy, input: Vector, now: real, total: real, run: Run,
                         t: Store)
      requires num.Valid() && config.Valid(num.pi) && Inv(num, config, s) && RunsFrom(num, config, s, run, t)
      requires run.steps == UpdateSteps(num, config, policy, s, o, input, now, total)
      ensures Evidence(t.nodes) == Evidence(s.nodes) + {o.eventId}
    {
      hide Inv, RunsFrom;
      UpdateRecords(num, config, policy, s, o, input, now, total);
      RunReaches(num, config, s, run, t);
      RecordingKeepsEvidence(num, config, s, run.steps, t, o.eventId);
    }

    /** A rejected observation changes nothing; an accepted one is dated no
        earlier than any before it, takes exactly the listed steps, is taken in
        by the closest node or a new one, and leaves the active nodes holding
        their former evidence and the new event, which the node returned holds. */
    method UpdateWithPolicy(o: Observation, policy: Policy)
      returns (r: Result<NodeId>, ghost run: Run, ghost total: real)
      requires Valid()
      modifies this
      ensures Valid() && RunsFrom(num, config, old(State()), run, State())
      ensures r.Ok? <==> Acceptable(o, policy)
      ensures r.Err? ==> State() == old(State())
      ensures r.Ok? ==> r.value in nodes && o.eventId in nodes[r.value].eventIds
      ensures r.Ok? ==> Evidence(nodes) == Evidence(old(nodes)) + {o.eventId}
      ensures r.Ok? ==> run.steps == UpdateSteps(num, config, policy, old(State()), o, num.unit(o.vector, config.eps),
                                                 Max(o.time, old(logicalTime)), total)
      ensures r.Ok? ==> var now := Max(o.time, old(logicalTime));
        TakesIn(num, config, policy, NodesDecayed(num, config, old(State()), now).nodes, o,
                num.unit(o.vector, config.eps), now, r.value, nodes)
    {
      hide Inv, RunsFrom, UpdateSteps, Evidence, TakesIn;
      ghost var s := State();
      run := EmptyRun(num, config, s);
      total := 0.0;
      if !policy.Valid(num.pi) {
        return Err("invalid policy"), run, total;
      }
      if |o.vector| != config.dimension {
        return Err("vector dimension does not match"), run, total;
      }
      var input := num.unit(o.vector, config.eps);
      if num.norm(input) < config.eps {
        return Err("DCMDb observation must have nonzero magnitude"), run, total;
      }
      var now := Max(o.time, logicalTime);
      var holder;
      holder, run, total := Observe(o, input, now, policy);
      UpdateEvidence(s, o, policy, input, now, total, run, State());
      r := Ok(holder);
    }

    // ----- Evidence expansion -----

    /** At least one level, the root and all its children, and all its events. */
    predicate HasRoom(root: NodeId, maxDepth: nat, maxNodes: nat, maxEvents: nat)
      reads this
      ensures HasRoom(root, maxDepth, maxNodes, maxEvents) ==> root in absorbed + nodes
    {
      var book := absorbed + nodes;
      root in book && maxDepth >= 1 && maxNodes > |book[root].children| && maxEvents >= |book[root].eventIds|
    }

    /** Whatever the hierarchy the answer is bounded and duplicate-free; on this
        store's hierarchy, given room, it is exactly the root's evidence. */
    method SubtreeEvents(root: NodeId, maxDepth: nat, maxNodes: nat, maxEvents: nat)
      returns (result: seq<EventId>, ghost order: seq<NodeId>)
      requires Valid()
      ensures Distinct(result) && |result| <= maxEvents && Distinct(order) && |order| <= maxNodes
      ensures forall e | e in result :: exists id | id in order :: e in Own(absorbed + nodes, id)
      ensures HasRoom(root, maxDepth, maxNodes, maxEvents) ==> ToSet(result) == ToSet((absorbed + nodes)[root].eventIds)
    {
      hide Own, Within, BookOk, OwnWithin;
      var book := absorbed + nodes;
      result, order := SubtreeEventIds(book, root, maxDepth, maxNodes, maxEvents);
      StoreBookOk(nodes, absorbed);
      if HasRoom(root, maxDepth, maxNodes, maxEvents) {
        ExpansionIsExact(book, absorbed, root, maxDepth, maxNodes, maxEvents);
      }
    }
  }
}

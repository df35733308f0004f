/** What an observation touches: the nodes close enough to absorb it, the nodes
    it coactivates, and the steps the update takes. */
module Observing {
  import opened Collections
  import opened Ranking
  import opened MemoryNodes
  import opened NodeLaws
  import opened MemoryStore
  import opened StoreInvariant
  import opened StoreTheorems

  datatype Observation = Observation(eventId: EventId, vector: Vector, time: real,
                                     source: Option<string>, metadata: map<string, string>)

  function Similarity(nodes: Nodes, input: Vector): Row {
    map id | id in nodes :: Dot(nodes[id].centroid, input)
  }

  function Nearby(nodes: Nodes, input: Vector, count: nat): seq<NodeId> {
    Take(Ranked(Similarity(nodes, input)), count)
  }

  /** Similarity with the source prior added. */
  function Adjusted(num: Numerics, policy: Policy, nodes: Nodes, input: Vector,
                    source: Option<string>, ids: seq<NodeId>): Row
  {
    map id | id in nodes && id in ids ::
      Dot(nodes[id].centroid, input) + policy.sourcePriorWeight * num.sourceShare(nodes[id].sourceCounts, source)
  }

  function AtLeast(scores: Row, threshold: real): Row { map id | id in scores && scores[id] >= threshold :: scores[id] }

  /** The nearby nodes whose adjusted similarity reaches the threshold, best first. */
  function Candidates(num: Numerics, cfg: Config, policy: Policy, nodes: Nodes, input: Vector,
                      source: Option<string>): seq<NodeId>
  {
    Ranked(AtLeast(Adjusted(num, policy, nodes, input, source, Nearby(nodes, input, cfg.neighbors)),
                   cfg.thetaSimilarity))
  }

  function Reaching(ids: seq<NodeId>, scores: Row, threshold: real): (r: seq<NodeId>)
    ensures forall id | id in r :: id in ids && id in scores && scores[id] >= threshold
  {
    if ids == [] then []
    else
      var rest := Reaching(ids[1..], scores, threshold);
      if ids[0] in scores && scores[ids[0]] >= threshold then [ids[0]] + rest else rest
  }

  /** Append the new entries of `more` until `limit` is reached. */
  function Filled(picks: seq<NodeId>, more: seq<NodeId>, limit: nat): seq<NodeId>
    decreases |more|
  {
    if more == [] || |picks| >= limit then picks
    else Filled(if more[0] in picks then picks else picks + [more[0]], more[1..], limit)
  }

  /** The nodes an observation coactivates. */
  function Coactivated(num: Numerics, cfg: Config, policy: Policy, nodes: Nodes, input: Vector,
                       candidates: seq<NodeId>): seq<NodeId>
  {
    var decoupled := Take(Reaching(Nearby(nodes, input, cfg.neighbors), Similarity(nodes, input),
                                   num.cos(cfg.pmiAngleMax)), cfg.pmiNeighbors);
    var coupled := Take(candidates, cfg.pmiNeighbors);
    match policy.pmiMode
    case Decoupled => decoupled
    case Coupled => coupled
    case Hybrid => Filled(coupled, decoupled, cfg.pmiNeighbors)
  }

  // ----- Which nodes these are -----

  /** Nearby are the nodes that fewer than `count` others surpass in similarity. */
  lemma NearbyExactly(nodes: Nodes, input: Vector, count: nat, id: NodeId)
    ensures id in Nearby(nodes, input, count) <==> id in nodes && |Ahead(Similarity(nodes, input), id)| < count
  {
    hide Ranked;
    var scores := Similarity(nodes, input);
    if id in nodes {
      RankedPrefix(scores, count, id);
    } else {
      NearbyAreActive(nodes, input, count);
      assert id !in ToSet(Nearby(nodes, input, count));
    }
  }

  /** Candidates are the nearby nodes whose similarity, with the source prior,
      reaches the threshold; the winner leads them all. */
  lemma CandidatesExactly(num: Numerics, cfg: Config, policy: Policy, nodes: Nodes, input: Vector,
                          source: Option<string>, id: NodeId)
    ensures id in Candidates(num, cfg, policy, nodes, input, source) <==>
      && id in nodes && id in Nearby(nodes, input, cfg.neighbors)
      && Affinity(num, policy, nodes[id], input, source) >= cfg.thetaSimilarity
    ensures id in Candidates(num, cfg, policy, nodes, input, source) ==>
      var first := Candidates(num, cfg, policy, nodes, input, source)[0];
      first in nodes && Closer(num, policy, nodes, input, source, first, id)
  {
    hide Ranked, Adjusted, AtLeast, Nearby, Before, Affinity;
    var eligible := AtLeast(Adjusted(num, policy, nodes, input, source, Nearby(nodes, input, cfg.neighbors)),
                            cfg.thetaSimilarity);
    Eligible(num, cfg, policy, nodes, input, source);
    var candidates := Ranked(eligible);
    RankedKeys(eligible);
    assert id in candidates <==> id in ToSet(candidates);
    if id in candidates {
      var top := RankedUnfold(eligible);
      assert id == top || Before(eligible, top, id);
      BeforeIsCloser(num, policy, nodes, input, source, eligible, top, id);
    }
  }

  lemma Eligible(num: Numerics, cfg: Config, policy: Policy, nodes: Nodes, input: Vector, source: Option<string>)
    ensures var eligible := AtLeast(Adjusted(num, policy, nodes, input, source, Nearby(nodes, input, cfg.neighbors)),
                                    cfg.thetaSimilarity);
      forall id ::
        && (id in eligible <==>
              && id in nodes && id in Nearby(nodes, input, cfg.neighbors)
              && Affinity(num, policy, nodes[id], input, source) >= cfg.thetaSimilarity)
        && (id in eligible ==> eligible[id] == Affinity(num, policy, nodes[id], input, source))
  {
    hide Nearby, Affinity, Adjusted;
    AdjustedExactly(num, policy, nodes, input, source, Nearby(nodes, input, cfg.neighbors));
  }

  lemma AdjustedExactly(num: Numerics, policy: Policy, nodes: Nodes, input: Vector, source: Option<string>,
                        ids: seq<NodeId>)
    ensures forall id :: id in Adjusted(num, policy, nodes, input, source, ids) <==> id in nodes && id in ids
    ensures forall id | id in nodes && id in ids ::
      Adjusted(num, policy, nodes, input, source, ids)[id] == Affinity(num, policy, nodes[id], input, source)
  {
    hide Dot;
  }

  /** How close a node is to an input once its sources are taken into account. */
  ghost function Affinity(num: Numerics, policy: Policy, node: MemoryNode, input: Vector, source: Option<string>): real
  {
    Dot(node.centroid, input) + policy.sourcePriorWeight * num.sourceShare(node.sourceCounts, source)
  }

  /** `a` comes before `b` or is `b`. */
  ghost predicate Closer(num: Numerics, policy: Policy, nodes: Nodes, input: Vector, source: Option<string>,
                         a: NodeId, b: NodeId)
    requires a in nodes && b in nodes
  {
    var x, y := Affinity(num, policy, nodes[a], input, source), Affinity(num, policy, nodes[b], input, source);
    x > y || (x == y && a <= b)
  }

  lemma BeforeIsCloser(num: Numerics, policy: Policy, nodes: Nodes, input: Vector, source: Option<string>, scores: Row,
                       a: NodeId, b: NodeId)
    requires a in nodes && b in nodes && a in scores && b in scores && (a == b || Before(scores, a, b))
    requires scores[a] == Affinity(num, policy, nodes[a], input, source)
      && scores[b] == Affinity(num, policy, nodes[b], input, source)
    ensures Closer(num, policy, nodes, input, source, a, b)
  {
  }

  /** The hybrid choice keeps its picks, adds only from `more` in order, stops at
      the limit, and leaves nothing out while there is room. */
  lemma {:induction false} FilledExactly(picks: seq<NodeId>, more: seq<NodeId>, limit: nat)
    ensures picks <= Filled(picks, more, limit)
    ensures |picks| <= limit ==> |Filled(picks, more, limit)| <= limit
    ensures forall id | id in Filled(picks, more, limit) :: id in picks || id in more
    ensures |Filled(picks, more, limit)| < limit ==> forall id | id in more :: id in Filled(picks, more, limit)
    decreases |more|
  {
    if more != [] && |picks| < limit {
      var next := if more[0] in picks then picks else picks + [more[0]];
      FilledExactly(next, more[1..], limit);
      assert more[0] in next;
    }
  }

  /** Coupled to the update, it takes the best candidates; the hybrid starts with
      these and fills up with what it would have taken alone. */
  lemma CoupledExactly(num: Numerics, cfg: Config, policy: Policy, nodes: Nodes, input: Vector,
                       candidates: seq<NodeId>)
    ensures var best := if |candidates| <= cfg.pmiNeighbors then candidates else candidates[..cfg.pmiNeighbors];
      var alone := Coactivated(num, cfg, policy.(pmiMode := Decoupled), nodes, input, candidates);
      var taken := Coactivated(num, cfg, policy, nodes, input, candidates);
      && (policy.pmiMode.Coupled? ==> taken == best)
      && (policy.pmiMode.Hybrid? ==>
            && best <= taken && |taken| <= cfg.pmiNeighbors
            && (forall id | id in taken :: id in best || id in alone)
            && (|taken| < cfg.pmiNeighbors ==> forall id | id in alone :: id in taken))
  {
    hide Nearby, Similarity, Reaching, Filled;
    FilledExactly(Take(candidates, cfg.pmiNeighbors),
      Take(Reaching(Nearby(nodes, input, cfg.neighbors), Similarity(nodes, input), num.cos(cfg.pmiAngleMax)),
           cfg.pmiNeighbors),
      cfg.pmiNeighbors);
  }

  lemma {:induction false} ReachingPrefix(ids: seq<NodeId>, scores: Row, threshold: real) returns (n: nat)
    requires forall i | 0 <= i < |ids| :: ids[i] in scores
    requires forall i, j | 0 <= i < j < |ids| :: scores[ids[i]] >= scores[ids[j]]
    ensures n <= |ids| && Reaching(ids, scores, threshold) == ids[..n]
    ensures forall i | 0 <= i < |ids| :: i < n <==> scores[ids[i]] >= threshold
    decreases |ids|
  {
    n := 0;
    if ids != [] {
      var rest := ReachingPrefix(ids[1..], scores, threshold);
      if scores[ids[0]] >= threshold {
        n := rest + 1;
        assert ids[..n] == [ids[0]] + ids[1..][..rest];
      }
      forall i | 0 <= i < |ids|
        ensures i < n <==> scores[ids[i]] >= threshold
      {
        assert i > 0 ==> ids[1..][i - 1] == ids[i];
      }
    }
  }

  lemma ReachingTaken(ranked: seq<NodeId>, scores: Row, threshold: real, near: nat, limit: nat, id: NodeId)
    requires forall i | 0 <= i < |ranked| :: ranked[i] in scores
    requires forall i, j | 0 <= i < j < |ranked| :: scores[ranked[i]] >= scores[ranked[j]]
    ensures id in Take(Reaching(Take(ranked, near), scores, threshold), limit)
      <==> id in Take(ranked, near) && id in Take(ranked, limit) && id in scores && scores[id] >= threshold
  {
    hide Reaching;
    var front := Take(ranked, near);
    var n := ReachingPrefix(front, scores, threshold);
    var taken := Take(front[..n], limit);
    if id in taken {
      var i :| 0 <= i < |taken| && taken[i] == id;
      assert front[i] == id && Take(ranked, limit)[i] == id;
    }
    if id in front && id in Take(ranked, limit) && id in scores && scores[id] >= threshold {
      if near <= limit {
        var i :| 0 <= i < |front| && front[i] == id;
        assert taken[i] == id;
      } else {
        var i :| 0 <= i < |Take(ranked, limit)| && Take(ranked, limit)[i] == id;
        assert front[i] == id && taken[i] == id;
      }
    }
  }

  /** Left alone, coactivation takes the most similar nodes within the angle: those
      that fewer surpass than are coactivated, or than count as near. */
  lemma DecoupledExactly(num: Numerics, cfg: Config, policy: Policy, nodes: Nodes, input: Vector,
                         candidates: seq<NodeId>, id: NodeId)
    requires policy.pmiMode.Decoupled?
    ensures id in Coactivated(num, cfg, policy, nodes, input, candidates) <==>
      && id in nodes && Dot(nodes[id].centroid, input) >= num.cos(cfg.pmiAngleMax)
      && |Ahead(Similarity(nodes, input), id)| < cfg.neighbors
      && |Ahead(Similarity(nodes, input), id)| < cfg.pmiNeighbors
  {
    hide Ranked, Dot, Take, Reaching, Ahead;
    var scores := Similarity(nodes, input);
    RankedDescends(scores);
    ReachingTaken(Ranked(scores), scores, num.cos(cfg.pmiAngleMax), cfg.neighbors, cfg.pmiNeighbors, id);
    if id in nodes {
      RankedPrefix(scores, cfg.neighbors, id);
      RankedPrefix(scores, cfg.pmiNeighbors, id);
    }
  }

  // ----- These lists name distinct active nodes -----

  lemma TakeDistinct(ids: seq<NodeId>, n: nat)
    requires Distinct(ids)
    ensures Distinct(Take(ids, n)) && ToSet(Take(ids, n)) <= ToSet(ids)
  {
    forall id | id in ToSet(Take(ids, n))
      ensures id in ToSet(ids)
    {
      assert id in ids;
    }
  }

  lemma CandidatesAreActive(num: Numerics, cfg: Config, policy: Policy, nodes: Nodes, input: Vector,
                            source: Option<string>)
    ensures Distinct(Candidates(num, cfg, policy, nodes, input, source))
    ensures ToSet(Candidates(num, cfg, policy, nodes, input, source)) <= nodes.Keys
  {
    var adjusted := Adjusted(num, policy, nodes, input, source, Nearby(nodes, input, cfg.neighbors));
    RankedKeys(AtLeast(adjusted, cfg.thetaSimilarity));
    assert AtLeast(adjusted, cfg.thetaSimilarity).Keys <= adjusted.Keys <= nodes.Keys;
  }

  lemma {:induction false} ReachingDistinct(ids: seq<NodeId>, scores: Row, threshold: real)
    requires Distinct(ids)
    ensures Distinct(Reaching(ids, scores, threshold))
    decreases |ids|
  {
    if ids != [] {
      ReachingDistinct(ids[1..], scores, threshold);
      var rest := Reaching(ids[1..], scores, threshold);
      forall i | 0 <= i < |rest|
        ensures rest[i] != ids[0]
      {
        assert rest[i] in rest;
      }
    }
  }

  lemma {:induction false} FilledDistinct(picks: seq<NodeId>, more: seq<NodeId>, limit: nat)
    requires Distinct(picks)
    ensures Distinct(Filled(picks, more, limit))
    ensures ToSet(Filled(picks, more, limit)) <= ToSet(picks) + ToSet(more)
    decreases |more|
  {
    if more != [] && |picks| < limit {
      var next := if more[0] in picks then picks else picks + [more[0]];
      FilledDistinct(next, more[1..], limit);
      assert ToSet(next) <= ToSet(picks) + {more[0]};
      assert ToSet(more[1..]) <= ToSet(more);
    }
  }

  lemma NearbyAreActive(nodes: Nodes, input: Vector, count: nat)
    ensures Distinct(Nearby(nodes, input, count)) && ToSet(Nearby(nodes, input, count)) <= nodes.Keys
  {
    RankedKeys(Similarity(nodes, input));
    TakeDistinct(Ranked(Similarity(nodes, input)), count);
    assert Similarity(nodes, input).Keys == nodes.Keys;
  }

  lemma DecoupledAreActive(nodes: Nodes, near: seq<NodeId>, scores: Row, threshold: real, n: nat)
    requires Distinct(near) && ToSet(near) <= nodes.Keys
    ensures Distinct(Take(Reaching(near, scores, threshold), n))
    ensures ToSet(Take(Reaching(near, scores, threshold), n)) <= nodes.Keys
  {
    ReachingDistinct(near, scores, threshold);
    TakeDistinct(Reaching(near, scores, threshold), n);
    forall id | id in ToSet(Reaching(near, scores, threshold))
      ensures id in nodes
    {
      assert id in ToSet(near);
    }
  }

  /** Whatever the mode, the coactivated nodes are distinct and active. */
  lemma CoactivatedAreActive(num: Numerics, cfg: Config, policy: Policy, nodes: Nodes, input: Vector,
                             candidates: seq<NodeId>)
    requires Distinct(candidates) && ToSet(candidates) <= nodes.Keys
    ensures Distinct(Coactivated(num, cfg, policy, nodes, input, candidates))
    ensures ToSet(Coactivated(num, cfg, policy, nodes, input, candidates)) <= nodes.Keys
  {
    NearbyAreActive(nodes, input, cfg.neighbors);
    DecoupledAreActive(nodes, Nearby(nodes, input, cfg.neighbors), Similarity(nodes, input),
                       num.cos(cfg.pmiAngleMax), cfg.pmiNeighbors);
    TakeDistinct(candidates, cfg.pmiNeighbors);
    FilledDistinct(Take(candidates, cfg.pmiNeighbors),
      Take(Reaching(Nearby(nodes, input, cfg.neighbors), Similarity(nodes, input), num.cos(cfg.pmiAngleMax)),
           cfg.pmiNeighbors),
      cfg.pmiNeighbors);
  }

  // ----- The steps of an update -----

  function Annotated(node: MemoryNode, metadata: map<string, string>): MemoryNode {
    node.(metadata := node.metadata + metadata)
  }

  /** The winner's record once it has absorbed the observation. */
  function Absorbed(num: Numerics, cfg: Config, node: MemoryNode, o: Observation, input: Vector, now: real): MemoryNode
  {
    Annotated(Reinforced(num, cfg, node, o.eventId, input, Dot(node.centroid, input), now, o.source), o.metadata)
  }

  function AbsorbSteps(winner: NodeId, node: MemoryNode, o: Observation, input: Vector, now: real): seq<Step> {
    [Reinforce(winner, o.eventId, input, Dot(node.centroid, input), now, o.source), Annotate(winner, o.metadata)]
  }

  lemma AbsorbedRecords(num: Numerics, cfg: Config, node: MemoryNode, o: Observation, input: Vector, now: real)
    requires NodeOk(node, cfg.dimension) && |input| == cfg.dimension && num.Valid()
    ensures o.eventId in Absorbed(num, cfg, node, o, input, now).eventIds
  {
    ReinforcedIsOk(num, cfg, node, o.eventId, input, Dot(node.centroid, input), now, o.source);
    var after := Reinforced(num, cfg, node, o.eventId, input, Dot(node.centroid, input), now, o.source);
    assert o.eventId in ToSet(after.eventIds);
  }

  /** What the promotion test adds, given the winner's updated record. */
  function PromotionSteps(num: Numerics, cfg: Config, winner: NodeId, node: MemoryNode, o: Observation,
                          input: Vector, now: real): seq<Step>
  {
    match Promotion(num, cfg, node)
    case Keep => []
    case Clear => [Relieve(winner, false)]
    case Split(bayesian) =>
      if node.tension.None? then [] else
        [Relieve(winner, bayesian),
         Spawn(o.eventId, SplitVector(num, cfg, node.tension.value, input, bayesian), now, o.source, map[])]
  }

  function Closeness(nodes: Nodes, ids: seq<NodeId>, input: Vector): seq<real> {
    seq(|ids|, i requires 0 <= i < |ids| => if ids[i] in nodes then Dot(nodes[ids[i]].centroid, input) else 0.0)
  }

  function Reinforcements(nodes: Nodes, ids: seq<NodeId>, o: Observation, input: Vector, now: real): seq<Step> {
    seq(|ids|, i requires 0 <= i < |ids| =>
      Reinforce(ids[i], o.eventId, input, Closeness(nodes, ids, input)[i], now, o.source))
  }

  function Secondary(policy: Policy, candidates: seq<NodeId>): seq<NodeId> {
    if candidates == [] then []
    else if policy.maximumSecondaryUpdates.Some? then Take(candidates[1..], policy.maximumSecondaryUpdates.value)
    else candidates[1..]
  }

  function CountStep(ids: seq<NodeId>): Step { Count(Once(ToSet(ids)), Together(ToSet(ids))) }

  lemma SecondaryAreOthers(policy: Policy, candidates: seq<NodeId>)
    requires Distinct(candidates) && candidates != []
    ensures candidates[0] !in Secondary(policy, candidates) && Distinct(Secondary(policy, candidates))
    ensures Secondary(policy, candidates) <= candidates[1..]
    ensures policy.maximumSecondaryUpdates.Some? ==>
      |Secondary(policy, candidates)| <= policy.maximumSecondaryUpdates.value
    ensures Secondary(policy, candidates) != candidates[1..] ==>
      policy.maximumSecondaryUpdates == Some(|Secondary(policy, candidates)|)
    ensures forall i | 0 <= i < |Secondary(policy, candidates)| :: Secondary(policy, candidates)[i] in ToSet(candidates)
  {
    var secondary := Secondary(policy, candidates);
    forall i | 0 <= i < |secondary|
      ensures secondary[i] in ToSet(candidates) && secondary[i] != candidates[0]
    {
      assert secondary[i] == candidates[i + 1];
    }
  }

  /** No node is close enough: a new one is spawned. */
  function NewNodeSteps(num: Numerics, counter: nat, o: Observation, input: Vector, now: real,
                        coactivated: seq<NodeId>): seq<Step>
  {
    [CountStep(coactivated), Spawn(o.eventId, input, now, o.source, o.metadata),
     Count(Once({num.nodeHash(o.eventId, counter)}), map[])]
  }

  /** The best candidate absorbs the observation, may split, and the others follow. */
  function KnownNodeSteps(num: Numerics, cfg: Config, policy: Policy, nodes: Nodes, o: Observation,
                          input: Vector, now: real, candidates: seq<NodeId>, coactivated: seq<NodeId>): seq<Step>
    requires candidates != [] && candidates[0] in nodes
  {
    var winner := candidates[0];
    AbsorbSteps(winner, nodes[winner], o, input, now)
    + PromotionSteps(num, cfg, winner, Absorbed(num, cfg, nodes[winner], o, input, now), o, input, now)
    + Reinforcements(nodes, Secondary(policy, candidates), o, input, now)
    + [CountStep(coactivated)]
  }

  lemma KnownStepsListed(base: seq<Step>, num: Numerics, cfg: Config, policy: Policy, nodes: Nodes, o: Observation,
                         input: Vector, now: real, candidates: seq<NodeId>, coactivated: seq<NodeId>)
    requires candidates != [] && candidates[0] in nodes
    ensures base + AbsorbSteps(candidates[0], nodes[candidates[0]], o, input, now)
      + PromotionSteps(num, cfg, candidates[0], Absorbed(num, cfg, nodes[candidates[0]], o, input, now), o, input, now)
      + Reinforcements(nodes, Secondary(policy, candidates), o, input, now) + [CountStep(coactivated)]
      == base + KnownNodeSteps(num, cfg, policy, nodes, o, input, now, candidates, coactivated)
  {
    hide AbsorbSteps, PromotionSteps, Absorbed, Reinforcements, Secondary, CountStep;
  }

  /** Everything between the decay and the refresh, on the decayed nodes. */
  function ObservationSteps(num: Numerics, cfg: Config, policy: Policy, nodes: Nodes, counter: nat,
                            o: Observation, input: Vector, now: real): seq<Step>
  {
    var candidates := Candidates(num, cfg, policy, nodes, input, o.source);
    var coactivated := Coactivated(num, cfg, policy, nodes, input, candidates);
    if candidates == [] || candidates[0] !in nodes then NewNodeSteps(num, counter, o, input, now, coactivated)
    else KnownNodeSteps(num, cfg, policy, nodes, o, input, now, candidates, coactivated)
  }

  // ----- What an update does to the nodes -----

  /** The node the winner's record became: it learnt, was judged and annotated. */
  lemma AbsorbedExactly(num: Numerics, cfg: Config, node: MemoryNode, o: Observation, input: Vector, now: real)
    requires num.Valid() && cfg.Valid(num.pi) && NodeOk(node, cfg.dimension) && |input| == cfg.dimension
    ensures exists taught ::
      && ReinforcesTo(num, cfg, node, o.eventId, input, Dot(node.centroid, input), now, o.source, taught)
      && Absorbed(num, cfg, node, o, input, now) == taught.(metadata := taught.metadata + o.metadata)
  {
    hide Reinforced, ReinforcesTo, Dot;
    ReinforcedExactly(num, cfg, node, o.eventId, input, Dot(node.centroid, input), now, o.source);
  }

  /** The nodes that follow the winner learn from the observation as they were; no other node changes. */
  ghost predicate OthersFollow(num: Numerics, cfg: Config, policy: Policy, nodes: Nodes, candidates: seq<NodeId>,
                               o: Observation, input: Vector, now: real, after: Nodes)
  {
    forall id | id in nodes && id in after && candidates != [] && id != candidates[0] ::
      after[id] ==
        if id in Secondary(policy, candidates)
        then Reinforced(num, cfg, nodes[id], o.eventId, input, Dot(nodes[id].centroid, input), now, o.source)
        else nodes[id]
  }

  /** An observation that no node is close to becomes a node; otherwise the closest
      absorbs it, and what that did to its tension is settled. */
  ghost predicate TakesIn(num: Numerics, cfg: Config, policy: Policy, nodes: Nodes, o: Observation, input: Vector,
                          now: real, holder: NodeId, after: Nodes)
  {
    var candidates := Candidates(num, cfg, policy, nodes, input, o.source);
    && holder in after && after.Keys == nodes.Keys + {holder}
    && (candidates == [] ==>
          && holder !in nodes && IsNew(num, cfg, after[holder], o.eventId, input, now, o.source, o.metadata)
          && forall id | id in nodes :: after[id] == nodes[id])
    && (candidates != [] ==>
          && candidates[0] in nodes
          && Settles(num, cfg, nodes.Keys, candidates[0], Absorbed(num, cfg, nodes[candidates[0]], o, input, now),
                     o.eventId, input, now, o.source, holder, after)
          && OthersFollow(num, cfg, policy, nodes, candidates, o, input, now, after))
  }

  predicate RecordsOnly(step: Step, event: EventId) { !step.Prune? && Observed(step) <= {event} }

  ghost predicate OnlyRecords(steps: seq<Step>, event: EventId) {
    forall i {:trigger RecordsOnly(steps[i], event)} | 0 <= i < |steps| :: RecordsOnly(steps[i], event)
  }

  lemma OnlyRecordsConcat(first: seq<Step>, second: seq<Step>, event: EventId)
    requires OnlyRecords(first, event) && OnlyRecords(second, event)
    ensures OnlyRecords(first + second, event)
  {
    forall i | 0 <= i < |first + second|
      ensures RecordsOnly((first + second)[i], event)
    {
      if i < |first| {
        assert RecordsOnly(first[i], event);
      } else {
        assert RecordsOnly(second[i - |first|], event);
      }
    }
  }

  lemma {:induction false} RecordedConcat(first: seq<Step>, second: seq<Step>)
    ensures AllObserved(first + second) == AllObserved(first) + AllObserved(second)
    decreases |first|
  {
    if first == [] {
      assert first + second == second;
    } else {
      assert (first + second)[1..] == first[1..] + second;
      RecordedConcat(first[1..], second);
    }
  }

  lemma {:induction false} RecordsAtMost(steps: seq<Step>, event: EventId)
    requires OnlyRecords(steps, event)
    ensures AllObserved(steps) <= {event}
    decreases |steps|
  {
    if steps != [] {
      assert RecordsOnly(steps[0], event);
      forall i | 0 <= i < |steps[1..]|
        ensures RecordsOnly(steps[1..][i], event)
      {
        assert RecordsOnly(steps[i + 1], event);
      }
      RecordsAtMost(steps[1..], event);
    }
  }

  /** Whatever branch it takes, an update records its own event and no other. */
  lemma ObservationRecords(num: Numerics, cfg: Config, policy: Policy, nodes: Nodes, counter: nat,
                           o: Observation, input: Vector, now: real)
    ensures OnlyRecords(ObservationSteps(num, cfg, policy, nodes, counter, o, input, now), o.eventId)
    ensures AllObserved(ObservationSteps(num, cfg, policy, nodes, counter, o, input, now)) == {o.eventId}
  {
    var candidates := Candidates(num, cfg, policy, nodes, input, o.source);
    var coactivated := Coactivated(num, cfg, policy, nodes, input, candidates);
    if candidates == [] || candidates[0] !in nodes {
      NewNodeRecords(num, counter, o, input, now, coactivated);
    } else {
      KnownNodeRecords(num, cfg, policy, nodes, o, input, now, candidates, coactivated);
    }
  }

  lemma NewNodeRecords(num: Numerics, counter: nat, o: Observation, input: Vector, now: real, coactivated: seq<NodeId>)
    ensures OnlyRecords(NewNodeSteps(num, counter, o, input, now, coactivated), o.eventId)
    ensures AllObserved(NewNodeSteps(num, counter, o, input, now, coactivated)) == {o.eventId}
  {
    var steps := NewNodeSteps(num, counter, o, input, now, coactivated);
    assert steps == [steps[0]] + ([steps[1]] + [steps[2]]);
    RecordedConcat([steps[0]], [steps[1]] + [steps[2]]);
    RecordedConcat([steps[1]], [steps[2]]);
  }

  /** The steps record this event and no other. */
  ghost predicate RecordsEvent(steps: seq<Step>, event: EventId) {
    OnlyRecords(steps, event) && AllObserved(steps) == {event}
  }

  lemma RecordsMore(first: seq<Step>, second: seq<Step>, event: EventId)
    requires RecordsEvent(first, event) && OnlyRecords(second, event)
    ensures RecordsEvent(first + second, event)
  {
    hide OnlyRecords, AllObserved;
    OnlyRecordsConcat(first, second, event);
    RecordedConcat(first, second);
    RecordsAtMost(second, event);
  }

  lemma AbsorbRecords(winner: NodeId, node: MemoryNode, o: Observation, input: Vector, now: real)
    ensures RecordsEvent(AbsorbSteps(winner, node, o, input, now), o.eventId)
  {
    hide Dot;
    var steps := AbsorbSteps(winner, node, o, input, now);
    assert steps == [steps[0]] + [steps[1]];
    RecordedConcat([steps[0]], [steps[1]]);
  }

  lemma PromotionRecords(num: Numerics, cfg: Config, winner: NodeId, node: MemoryNode, o: Observation, input: Vector,
                         now: real)
    ensures OnlyRecords(PromotionSteps(num, cfg, winner, node, o, input, now), o.eventId)
  {
    hide SplitVector, Promotion;
  }

  lemma FollowersRecord(nodes: Nodes, ids: seq<NodeId>, o: Observation, input: Vector, now: real,
                        coactivated: seq<NodeId>)
    ensures OnlyRecords(Reinforcements(nodes, ids, o, input, now), o.eventId)
    ensures OnlyRecords([CountStep(coactivated)], o.eventId)
  {
    hide Dot;
  }

  lemma KnownNodeRecords(num: Numerics, cfg: Config, policy: Policy, nodes: Nodes, o: Observation,
                         input: Vector, now: real, candidates: seq<NodeId>, coactivated: seq<NodeId>)
    requires candidates != [] && candidates[0] in nodes
    ensures OnlyRecords(KnownNodeSteps(num, cfg, policy, nodes, o, input, now, candidates, coactivated), o.eventId)
    ensures AllObserved(KnownNodeSteps(num, cfg, policy, nodes, o, input, now, candidates, coactivated)) == {o.eventId}
  {
    hide OnlyRecords, AllObserved, AbsorbSteps, PromotionSteps, Absorbed, Reinforcements, Secondary, CountStep;
    var winner, event := candidates[0], o.eventId;
    var absorb := AbsorbSteps(winner, nodes[winner], o, input, now);
    var promote := PromotionSteps(num, cfg, winner, Absorbed(num, cfg, nodes[winner], o, input, now), o, input, now);
    var follow := Reinforcements(nodes, Secondary(policy, candidates), o, input, now);
    AbsorbRecords(winner, nodes[winner], o, input, now);
    PromotionRecords(num, cfg, winner, Absorbed(num, cfg, nodes[winner], o, input, now), o, input, now);
    FollowersRecord(nodes, Secondary(policy, candidates), o, input, now, coactivated);
    RecordsMore(absorb, promote, event);
    RecordsMore(absorb + promote, follow, event);
    RecordsMore(absorb + promote + follow, [CountStep(coactivated)], event);
  }

  /** Every step of an accepted update, from the store it starts on. */
  ghost function UpdateSteps(num: Numerics, cfg: Config, policy: Policy, s: Store, o: Observation, input: Vector,
                             now: real, total: real): seq<Step>
  {
    [Clock(now), DecayEdges(now), DecayNodes(now)]
    + ObservationSteps(num, cfg, policy, NodesDecayed(num, cfg, s, now).nodes, s.spawnCounter, o, input, now)
    + [Refresh(policy, total)]
  }

  lemma UpdateRecords(num: Numerics, cfg: Config, policy: Policy, s: Store, o: Observation, input: Vector, now: real,
                      total: real)
    ensures OnlyRecords(UpdateSteps(num, cfg, policy, s, o, input, now, total), o.eventId)
    ensures AllObserved(UpdateSteps(num, cfg, policy, s, o, input, now, total)) == {o.eventId}
  {
    hide ObservationSteps, NodesDecayed;
    var before := [Clock(now), DecayEdges(now), DecayNodes(now)];
    var middle := ObservationSteps(num, cfg, policy, NodesDecayed(num, cfg, s, now).nodes, s.spawnCounter, o, input,
                                   now);
    ObservationRecords(num, cfg, policy, NodesDecayed(num, cfg, s, now).nodes, s.spawnCounter, o, input, now);
    assert OnlyRecords(before, o.eventId) && OnlyRecords([Refresh(policy, total)], o.eventId);
    OnlyRecordsConcat(before, middle, o.eventId);
    OnlyRecordsConcat(before + middle, [Refresh(policy, total)], o.eventId);
    RecordsAtMost(before + middle + [Refresh(policy, total)], o.eventId);
    RecordedConcat(before, middle);
    RecordedConcat(before + middle, [Refresh(policy, total)]);
  }

  lemma RecordingKeepsEvidence(num: Numerics, cfg: Config, s: Store, steps: seq<Step>, t: Store, event: EventId)
    requires num.Valid() && cfg.eps > 0.0 && Inv(num, cfg, s) && Reaches(num, cfg, s, steps, t)
    requires OnlyRecords(steps, event) && AllObserved(steps) == {event}
    ensures Evidence(t.nodes) == Evidence(s.nodes) + {event}
  {
    hide Inv, Reaches;
    forall i | 0 <= i < |steps|
      ensures !steps[i].Prune?
    {
      assert RecordsOnly(steps[i], event);
    }
    RunKeepsEvidence(num, cfg, s, steps, t);
  }
}

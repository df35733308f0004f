/** One concept node of the DCMDb memory: its evidence, sufficient statistics,
    tension record and absorbed children, with the update rules that touch a
    single node. Floats are reals; transcendental functions stay uninterpreted. */
module MemoryNodes {
  import opened Collections
  import opened Ranking

  type EventId = nat
  type Vector = seq<real>


  /** The library mathematics and hashing the store calls but does not define. */
  datatype Numerics = Numerics(
    exp: real -> real,
    ln: real -> real,
    cos: real -> real,
    acos: real -> real,
    power: (real, real) -> real,
    sigmoid: real -> real,
    overZero: real -> real,
    pi: real,
    norm: Vector -> real,
    unit: (Vector, real) -> Vector,
    slerp: (Vector, Vector, real, real) -> Vector,
    kappa: (real, nat, real) -> real,
    logCVmf: (real, nat) -> real,
    quantile: (seq<real>, real) -> real,
    sourceShare: (map<string, real>, Option<string>) -> real,
    sourceVariation: (map<string, real>, map<string, real>) -> real,
    nodeHash: (EventId, nat) -> NodeId,
    dreamNonce: (nat, nat, Option<nat>, Option<NodeId>) -> nat)
  {
    /** The only facts about them that any proof uses. */
    ghost predicate Valid() {
      && (forall x :: x <= 0.0 ==> 0.0 < exp(x) <= 1.0)
      && (forall x, p :: x >= 0.0 ==> power(x, p) >= 0.0)
      && (forall v, e :: |unit(v, e)| == |v|)
      && (forall v, w, a, e :: |slerp(v, w, a, e)| == |v|)
      && (forall e, c, e', c' :: nodeHash(e, c) == nodeHash(e', c') ==> e == e' && c == c')
    }

    /** IEEE division: a zero divisor yields some value instead of a fault. */
    function Div(x: real, y: real): real { if y == 0.0 then overZero(x) else x / y }
  }

  datatype Config = Config(
    dimension: nat, thetaSimilarity: real, neighbors: nat,
    gamma0: real, lambdaAge: real, lambdaUncertainty: real, delta0: real,
    maxUpdateAngle: real, zeta: real, tensionPromoteCount: nat,
    mergeAngle: real, mergeBonus: real, mergePenalty: real, maxMergesPerPass: Option<nat>,
    kappaPseudocount: real, maximumKappaDrop: real, kappaDropPenalty: real, sourceDivergencePenalty: real,
    concentrationScale: real, concentrationBias: real, confidenceMassMinimum: real,
    tau0: real, tauMin: real, tauMax: real,
    dreamStickiness: real, dreamWalks: nat, dreamWalkLength: nat, dreamTemperature: real,
    dreamExplorationBonus: real, tauEdge: real,
    pmiEpsilon: real, pmiLearningRate: real, pmiNeighbors: nat, pmiAngleMax: real, topEdges: nat,
    pagerankRestart: real, splitProbability: real, clearProbability: real, splitPenalty: real,
    minimumTensionEvidence: nat, effectiveSampleMinimum: real, kappaRegularization: real,
    eps: real, initialWeight: real, pruneWeightThreshold: real, minimumPruneAge: real)
  {
    /** The checks of `DcmdbConfig::validate` on the parameters kept here. */
    predicate Valid(pi: real) {
      && dimension >= 2
      && 0.0 <= thetaSimilarity <= 1.0
      && 0.0 <= maxUpdateAngle <= pi && 0.0 <= mergeAngle <= pi / 2.0 && 0.0 <= pmiAngleMax <= pi
      && 0.0 <= pmiLearningRate <= 1.0 && 0.0 <= pagerankRestart <= 1.0
      && 0.0 <= splitProbability <= 1.0 && 0.0 <= clearProbability <= 1.0
      && neighbors > 0 && pmiNeighbors > 0 && topEdges > 0
      && tensionPromoteCount > 0 && minimumTensionEvidence > 0
      && gamma0 >= 0.0 && lambdaAge >= 0.0 && lambdaUncertainty >= 0.0 && delta0 >= 0.0 && zeta >= 0.0
      && mergeBonus >= 0.0 && mergePenalty >= 0.0 && kappaPseudocount >= 0.0
      && maximumKappaDrop >= 0.0 && kappaDropPenalty >= 0.0 && sourceDivergencePenalty >= 0.0
      && concentrationScale >= 0.0 && dreamStickiness >= 0.0 && dreamExplorationBonus >= 0.0
      && splitPenalty >= 0.0 && kappaRegularization >= 0.0 && initialWeight >= 0.0
      && pruneWeightThreshold >= 0.0 && minimumPruneAge >= 0.0
      && confidenceMassMinimum > 0.0 && 0.0 < tauMin <= tau0 <= tauMax
      && dreamTemperature > 0.0 && tauEdge > 0.0 && pmiEpsilon > 0.0
      && effectiveSampleMinimum > 0.0 && eps > 0.0
    }
  }

  datatype Tension = Tension(
    center: Vector, vector: Vector, uncertaintyRadius: real, trajectory: seq<Vector>,
    sufficientSum: Vector, effectiveCount: real, logBayesFactor: real, evidenceCount: nat)

  datatype MemoryNode = MemoryNode(
    id: NodeId, eventIds: seq<EventId>, centroid: Vector, sufficientSum: Vector,
    effectiveCount: real, weight: real, kappa: real, confidence: real, tau: real,
    lastDecay: real, lastSeen: real, visits: real, atypicalCount: nat, tension: Option<Tension>,
    sourceCounts: map<string, real>, level: nat, children: seq<NodeId>, metadata: map<string, string>)

  type Nodes = map<NodeId, MemoryNode>

  // ----- Vectors -----

  function Dot(a: Vector, b: Vector): real {
    if a == [] || b == [] then 0.0 else a[0] * b[0] + Dot(a[1..], b[1..])
  }

  /** Pairwise sum of a `zip`, which stops at the shorter vector. */
  function Plus(a: Vector, b: Vector): Vector {
    seq(if |a| <= |b| then |a| else |b|, i requires 0 <= i < |a| && i < |b| => a[i] + b[i])
  }

  /** A scaled vector added on, entry by entry: entries past `b` are untouched. */
  function AddScaled(a: Vector, scale: real, b: Vector): Vector {
    seq(|a|, i requires 0 <= i < |a| => if i < |b| then a[i] + scale * b[i] else a[i])
  }

  function Scaled(a: Vector, scale: real): Vector {
    seq(|a|, i requires 0 <= i < |a| => a[i] * scale)
  }

  function VectorSum(vectors: seq<Vector>, dimension: nat): Vector {
    if vectors == [] then seq(dimension, _ => 0.0)
    else AddScaled(VectorSum(vectors[..|vectors| - 1], dimension), 1.0, vectors[|vectors| - 1])
  }

  function Saturated(n: nat): nat { if n <= U32_MAX then n else U32_MAX }

  function ClampUnit(x: real): real { Clamp(x, -1.0, 1.0) }

  // ----- Evidence lists -----

  /** Entries of `ys` appended in order, those already present left out. */
  function AppendNew(xs: seq<EventId>, ys: seq<EventId>): seq<EventId>
    decreases |ys|
  {
    if ys == [] then xs
    else AppendNew(if ys[0] in xs then xs else xs + [ys[0]], ys[1..])
  }

  lemma {:induction false} AppendNewIsUnion(xs: seq<EventId>, ys: seq<EventId>)
    requires Distinct(xs)
    ensures Distinct(AppendNew(xs, ys))
    ensures ToSet(AppendNew(xs, ys)) == ToSet(xs) + ToSet(ys)
    decreases |ys|
  {
    if ys == [] {
    } else {
      var next := if ys[0] in xs then xs else xs + [ys[0]];
      AppendNewIsUnion(next, ys[1..]);
      assert ToSet(next) == ToSet(xs) + {ys[0]};
      assert ys == [ys[0]] + ys[1..];
      SetOfConcat([ys[0]], ys[1..]);
    }
  }

  // ----- Node rules -----

  function Confidence(num: Numerics, cfg: Config, kappa: real, count: real): real {
    num.sigmoid(cfg.concentrationScale * kappa - cfg.concentrationBias)
      * Min(num.Div(count, Max(cfg.confidenceMassMinimum, cfg.eps)), 1.0)
  }

  function Fresh(num: Numerics, cfg: Config, id: NodeId, event: EventId, input: Vector, now: real,
                 source: Option<string>, metadata: map<string, string>): MemoryNode
  {
    var kappa := num.kappa(1.0, cfg.dimension, cfg.eps);
    MemoryNode(
      id, [event], input, input, 1.0, cfg.initialWeight, kappa,
      Confidence(num, cfg, kappa, 1.0), cfg.tau0, now, now,
      if source.Some? then 1.0 else 0.0, 0, None,
      if source.Some? then map[source.value := 1.0] else map[], 0, [], metadata)
  }

  function Decayed(num: Numerics, cfg: Config, node: MemoryNode, now: real): MemoryNode {
    var elapsed := Max(now - node.lastDecay, 0.0);
    if elapsed <= 0.0 then node else
      var rho := num.exp(num.Div(-elapsed, Max(node.tau, cfg.eps)));
      node.(sufficientSum := Scaled(node.sufficientSum, rho),
            effectiveCount := node.effectiveCount * rho,
            weight := node.weight * rho,
            sourceCounts := map s | s in node.sourceCounts :: node.sourceCounts[s] * rho,
            lastDecay := now)
  }

  /** The weight an observation brings: more to a stale node, and to an uncertain one. */
  function Gain(num: Numerics, cfg: Config, node: MemoryNode, now: real): real {
    var elapsed := Max(now - node.lastSeen, 0.0);
    cfg.gamma0
      * (1.0 + cfg.lambdaAge * Min(num.Div(elapsed, Max(node.tau, cfg.eps)), 1.0))
      * (1.0 + cfg.lambdaUncertainty * (1.0 - node.confidence))
  }

  /** A centroid drawn towards the input by its share, within the widest turn allowed. */
  function Drawn(num: Numerics, cfg: Config, centroid: Vector, input: Vector, beta: real, theta: real): Vector {
    if theta < 0.00000001 then input
    else num.slerp(centroid, input, Min(beta, num.Div(cfg.maxUpdateAngle, theta)), cfg.eps)
  }

  /** How much of an input is added to the sums. */
  function Portion(beta: real, similarity: real): real { beta * similarity }

  /** A longer memory, within its bounds. */
  function LongerTau(cfg: Config, tau: real): real {
    Clamp(tau * (1.0 + cfg.dreamStickiness), cfg.tauMin, cfg.tauMax)
  }

  /** The statistics half of `update_node`. */
  function Refined(num: Numerics, cfg: Config, node: MemoryNode, event: EventId, input: Vector,
                   similarity: real, now: real, source: Option<string>): MemoryNode
  {
    var gamma := Gain(num, cfg, node, now);
    var beta := num.Div(gamma, node.weight + gamma);
    var eta := Portion(beta, similarity);
    var sufficientSum := AddScaled(node.sufficientSum, eta, input);
    var effectiveCount := node.effectiveCount + eta;
    var kappa := num.kappa(num.Div(num.norm(sufficientSum), Max(effectiveCount, cfg.eps)), cfg.dimension, cfg.eps);
    node.(eventIds := AppendNew(node.eventIds, [event]),
          centroid := Drawn(num, cfg, node.centroid, input, beta, num.acos(ClampUnit(similarity))),
          sufficientSum := sufficientSum,
          effectiveCount := effectiveCount,
          kappa := kappa,
          confidence := Confidence(num, cfg, kappa, effectiveCount),
          weight := node.weight + cfg.delta0 * similarity,
          lastSeen := now,
          visits := node.visits + 1.0,
          tau := LongerTau(cfg, node.tau),
          sourceCounts := if source.None? then node.sourceCounts
                          else node.sourceCounts[source.value := Get(node.sourceCounts, source.value) + 1.0])
  }

  predicate Atypical(num: Numerics, cfg: Config, node: MemoryNode, similarity: real) {
    var mean := num.Div(num.norm(node.sufficientSum), Max(node.effectiveCount, cfg.eps));
    && similarity >= cfg.thetaSimilarity
    && num.acos(ClampUnit(similarity)) > num.acos(ClampUnit(mean)) + cfg.zeta
  }

  function Weighed(num: Numerics, cfg: Config, centroid: Vector, tension: Tension): Tension {
    if tension.effectiveCount < cfg.eps then tension.(logBayesFactor := 0.0) else
      var resultant := num.norm(tension.sufficientSum);
      var mean := num.Div(resultant, tension.effectiveCount + cfg.kappaRegularization);
      var kappa := num.kappa(mean, cfg.dimension, cfg.eps);
      var samples := Max(cfg.effectiveSampleMinimum, tension.evidenceCount as real);
      tension.(logBayesFactor :=
        kappa * (resultant - Dot(centroid, tension.sufficientSum))
        - cfg.splitPenalty * num.ln(Max(samples, cfg.eps)))
  }

  function Widened(num: Numerics, cfg: Config, node: MemoryNode, input: Vector, angle: real): Tension
    requires node.tension.Some?
  {
    var t := node.tension.value;
    var sum := AddScaled(t.sufficientSum, 1.0, input);
    t.(sufficientSum := sum,
       effectiveCount := t.effectiveCount + 1.0,
       evidenceCount := Saturated(t.evidenceCount + 1),
       vector := Plus(input, Scaled(node.centroid, -1.0)),
       uncertaintyRadius := angle,
       trajectory := t.trajectory + [input],
       center := num.unit(sum, cfg.eps))
  }

  /** The tension half of `update_node`, on the node its statistics half produced. */
  function Judged(num: Numerics, cfg: Config, node: MemoryNode, input: Vector, similarity: real): MemoryNode {
    var angle := num.acos(ClampUnit(similarity));
    if Atypical(num, cfg, node, similarity) then
      var counted := node.(atypicalCount := Saturated(node.atypicalCount + 1));
      if node.tension.Some? then
        counted.(tension := Some(Weighed(num, cfg, node.centroid, Widened(num, cfg, node, input, angle))))
      else
        counted.(tension := Some(Tension(
          num.unit(Plus(node.centroid, input), cfg.eps), Plus(input, Scaled(node.centroid, -1.0)),
          angle, [input], input, 1.0, 0.0, 1)))
    else if node.tension.Some? then
      var heard := node.tension.value.(evidenceCount := Saturated(node.tension.value.evidenceCount + 1));
      var tension := Weighed(num, cfg, node.centroid, heard);
      if tension.evidenceCount >= cfg.minimumTensionEvidence
         && num.sigmoid(tension.logBayesFactor) < cfg.clearProbability
      then node.(atypicalCount := 0, tension := None)
      else node.(tension := Some(tension))
    else
      node.(atypicalCount := if node.atypicalCount == 0 then 0 else node.atypicalCount - 1)
  }

  function Reinforced(num: Numerics, cfg: Config, node: MemoryNode, event: EventId, input: Vector,
                      similarity: real, now: real, source: Option<string>): MemoryNode
  {
    Judged(num, cfg, Refined(num, cfg, node, event, input, similarity, now, source), input, similarity)
  }

  // ----- Promotion of a tension cluster -----

  datatype Verdict = Keep | Clear | Split(bayesian: bool)

  function Promotion(num: Numerics, cfg: Config, node: MemoryNode): Verdict {
    if node.tension.None? then Keep else
      var t := node.tension.value;
      var enough := t.evidenceCount >= cfg.minimumTensionEvidence;
      if !enough then
        if node.atypicalCount >= cfg.tensionPromoteCount then Split(false) else Keep
      else if num.sigmoid(t.logBayesFactor) > cfg.splitProbability then Split(true)
      else if num.sigmoid(t.logBayesFactor) < cfg.clearProbability then Clear
      else Keep
  }

  function SplitVector(num: Numerics, cfg: Config, tension: Tension, input: Vector, bayesian: bool): Vector {
    if !bayesian then tension.center
    else if num.norm(tension.sufficientSum) > cfg.eps then num.unit(tension.sufficientSum, cfg.eps)
    else input
  }

  /** The parent after its tension is cleared; a Bayesian split also hands the
      tension's statistics over to the new node. */
  function Relieved(num: Numerics, cfg: Config, node: MemoryNode, bayesian: bool): MemoryNode {
    var parent :=
      if !bayesian || node.tension.None? then node else
        var t := node.tension.value;
        var sum := AddScaled(node.sufficientSum, -1.0, t.sufficientSum);
        var count := Max(node.effectiveCount - t.effectiveCount, cfg.eps);
        var kappa := num.kappa(num.Div(num.norm(sum), Max(count, cfg.eps)), cfg.dimension, cfg.eps);
        node.(sufficientSum := sum, effectiveCount := count, centroid := num.unit(sum, cfg.eps),
              kappa := kappa, confidence := Confidence(num, cfg, kappa, count));
    parent.(atypicalCount := 0, tension := None)
  }

  // ----- Merging -----

  function Combined(a: map<string, real>, b: map<string, real>): map<string, real> {
    map s | s in a.Keys + b.Keys :: Get(a, s) + Get(b, s)
  }

  /** What `left` becomes when it absorbs `right`. */
  function Merged(num: Numerics, cfg: Config, left: MemoryNode, right: MemoryNode, rightId: NodeId,
                  similarity: real, sum: Vector, count: real, kappa: real): MemoryNode
  {
    left.(
      centroid := num.unit(sum, cfg.eps),
      sufficientSum := sum,
      effectiveCount := count,
      weight := left.weight + (right.weight + cfg.mergeBonus * Min(left.weight, right.weight) * Max(similarity, 0.0)),
      kappa := kappa,
      confidence := Confidence(num, cfg, kappa, count),
      tau := 0.5 * (left.tau + right.tau),
      lastSeen := Max(left.lastSeen, right.lastSeen),
      lastDecay := Max(left.lastDecay, right.lastDecay),
      visits := left.visits + right.visits,
      eventIds := AppendNew(left.eventIds, right.eventIds),
      sourceCounts := Combined(left.sourceCounts, right.sourceCounts),
      metadata := right.metadata + left.metadata,
      level := if left.level == right.level then Saturated(left.level + 1)
               else if left.level >= right.level then left.level else right.level,
      children := left.children + [rightId] + right.children)
  }

  /** The statistics a merge would have, when its evidence supports it. */
  datatype Fit = Rejected | Accepted(count: real, kappa: real)

  function LogLikelihood(num: Numerics, cfg: Config, count: real, kappa: real, resultant: real): real {
    count * num.logCVmf(kappa, cfg.dimension) + kappa * resultant
  }

  /** The concentration of a resultant over so many samples, smoothed by the pseudocount. */
  function Smoothed(num: Numerics, cfg: Config, count: real, resultant: real): real {
    num.kappa(num.Div(resultant, count + Max(cfg.kappaPseudocount, 0.0)), cfg.dimension, cfg.eps)
  }

  /** The evidence test of a consolidation pass on one pair. */
  function MergeFit(num: Numerics, cfg: Config, left: MemoryNode, right: MemoryNode, samples: real): Fit {
    var leftCount, leftNorm := Max(left.effectiveCount, cfg.eps), num.norm(left.sufficientSum);
    var rightCount, rightNorm := Max(right.effectiveCount, cfg.eps), num.norm(right.sufficientSum);
    var count, norm := leftCount + rightCount, num.norm(Plus(left.sufficientSum, right.sufficientSum));
    var leftKappa := Smoothed(num, cfg, leftCount, leftNorm);
    var rightKappa := Smoothed(num, cfg, rightCount, rightNorm);
    var kappa := Smoothed(num, cfg, count, norm);
    var gain := LogLikelihood(num, cfg, count, kappa, norm)
      - LogLikelihood(num, cfg, leftCount, leftKappa, leftNorm)
      - LogLikelihood(num, cfg, rightCount, rightKappa, rightNorm);
    var bic := num.ln(Max(Max(samples, cfg.effectiveSampleMinimum), cfg.eps));
    var drop := Max(Min(leftKappa, rightKappa) - kappa, 0.0);
    if Worthwhile(cfg, gain, bic, drop, num.sourceVariation(left.sourceCounts, right.sourceCounts))
    then Accepted(count, kappa) else Rejected
  }

  /** Whether a merge's gain outweighs what speaks against it. */
  predicate Worthwhile(cfg: Config, gain: real, bic: real, drop: real, divergence: real) {
    var score := gain + cfg.mergePenalty * bic - cfg.kappaDropPenalty * drop - cfg.sourceDivergencePenalty * divergence;
    var unpenalized := cfg.mergePenalty <= 0.0 && cfg.maximumKappaDrop <= 0.0
      && cfg.kappaDropPenalty <= 0.0 && cfg.sourceDivergencePenalty <= 0.0;
    if cfg.maximumKappaDrop > 0.0 && drop > cfg.maximumKappaDrop then false
    else if score <= 0.0 && !unpenalized then false
    else true
  }

  // ----- What every reachable node satisfies -----

  /** The tension record counts and sums exactly its trajectory. */
  ghost predicate Tallies(t: Tension, atypicalCount: nat, dimension: nat) {
    && t.trajectory != []
    && atypicalCount == Saturated(|t.trajectory|) <= t.evidenceCount
    && t.effectiveCount == |t.trajectory| as real
    && t.sufficientSum == VectorSum(t.trajectory, dimension)
    && |t.sufficientSum| == |t.center| == dimension
  }

  ghost predicate TensionOk(node: MemoryNode, dimension: nat) {
    match node.tension
    case None => node.atypicalCount == 0
    case Some(t) => Tallies(t, node.atypicalCount, dimension)
  }

  ghost predicate NodeOk(node: MemoryNode, dimension: nat) {
    && |node.centroid| == |node.sufficientSum| == dimension
    && Distinct(node.eventIds)
    && TensionOk(node, dimension)
  }

  lemma VectorSumExtends(vectors: seq<Vector>, v: Vector, dimension: nat)
    ensures VectorSum(vectors + [v], dimension) == AddScaled(VectorSum(vectors, dimension), 1.0, v)
  {
    assert (vectors + [v])[..|vectors|] == vectors;
  }

  lemma FreshIsOk(num: Numerics, cfg: Config, id: NodeId, event: EventId, input: Vector, now: real,
                  source: Option<string>, metadata: map<string, string>)
    requires |input| == cfg.dimension
    ensures NodeOk(Fresh(num, cfg, id, event, input, now, source, metadata), cfg.dimension)
  {
  }

  lemma RefinedKeeps(num: Numerics, cfg: Config, node: MemoryNode, event: EventId, input: Vector, similarity: real,
                     now: real, source: Option<string>)
    requires num.Valid() && NodeOk(node, cfg.dimension) && |input| == cfg.dimension
    ensures var refined := Refined(num, cfg, node, event, input, similarity, now, source);
      && NodeOk(refined, cfg.dimension) && refined.children == node.children
      && ToSet(refined.eventIds) == ToSet(node.eventIds) + {event}
  {
    AppendNewIsUnion(node.eventIds, [event]);
    assert ToSet([event]) == {event};
  }

  /** An observation keeps the node well formed and records exactly its event. */
  lemma ReinforcedIsOk(num: Numerics, cfg: Config, node: MemoryNode, event: EventId, input: Vector,
                       similarity: real, now: real, source: Option<string>)
    requires num.Valid() && NodeOk(node, cfg.dimension) && |input| == cfg.dimension
    ensures var r := Reinforced(num, cfg, node, event, input, similarity, now, source);
      && NodeOk(r, cfg.dimension)
      && ToSet(r.eventIds) == ToSet(node.eventIds) + {event}
      && r.children == node.children
  {
    var refined := Refined(num, cfg, node, event, input, similarity, now, source);
    RefinedKeeps(num, cfg, node, event, input, similarity, now, source);
    hide Refined, Judged;
    JudgedIsOk(num, cfg, refined, input, similarity);
  }

  lemma WidenedRecords(num: Numerics, cfg: Config, node: MemoryNode, input: Vector, angle: real)
    requires num.Valid() && |input| == cfg.dimension
    requires node.tension.Some? && Tallies(node.tension.value, node.atypicalCount, cfg.dimension)
    ensures Tallies(Widened(num, cfg, node, input, angle), Saturated(node.atypicalCount + 1), cfg.dimension)
  {
    VectorSumExtends(node.tension.value.trajectory, input, cfg.dimension);
  }

  lemma FirstRecord(input: Vector, dimension: nat)
    requires |input| == dimension
    ensures VectorSum([input], dimension) == input
  {
    VectorSumExtends([], input, dimension);
    assert [] + [input] == [input];
  }

  lemma JudgedIsOk(num: Numerics, cfg: Config, node: MemoryNode, input: Vector, similarity: real)
    requires num.Valid() && NodeOk(node, cfg.dimension) && |input| == cfg.dimension
    ensures var r := Judged(num, cfg, node, input, similarity);
      NodeOk(r, cfg.dimension) && r.eventIds == node.eventIds && r.children == node.children
  {
    hide Atypical, VectorSum;
    if Atypical(num, cfg, node, similarity) {
      if node.tension.Some? {
        WidenedRecords(num, cfg, node, input, num.acos(ClampUnit(similarity)));
      } else {
        FirstRecord(input, cfg.dimension);
      }
    }
  }

  /** A quiet observation of a node without a tension record lowers its atypical
      count by one, down to zero; on a sound node it is zero already. */
  lemma QuietDecrementIsIdle(num: Numerics, cfg: Config, node: MemoryNode, input: Vector, similarity: real)
    requires node.tension.None? && !Atypical(num, cfg, node, similarity)
    ensures var after := Judged(num, cfg, node, input, similarity);
      && after == node.(atypicalCount := after.atypicalCount)
      && (node.atypicalCount > 0 ==> after.atypicalCount + 1 == node.atypicalCount)
      && (NodeOk(node, cfg.dimension) ==> after == node)
  {
    assert NodeOk(node, cfg.dimension) ==> node.atypicalCount == 0;
  }

  lemma RelievedIsOk(num: Numerics, cfg: Config, node: MemoryNode, bayesian: bool)
    requires num.Valid() && NodeOk(node, cfg.dimension)
    ensures NodeOk(Relieved(num, cfg, node, bayesian), cfg.dimension)
  {
  }

  /** What matters of a merge beyond the two nodes' numeric summaries: statistics
      add up, evidence unites, and the family gains the absorbed node and its own. */
  ghost predicate Combines(left: MemoryNode, right: MemoryNode, rightId: NodeId, m: MemoryNode) {
    && m.sufficientSum == Plus(left.sufficientSum, right.sufficientSum)
    && m.visits == left.visits + right.visits
    && m.sourceCounts == Combined(left.sourceCounts, right.sourceCounts)
    && m.eventIds == AppendNew(left.eventIds, right.eventIds)
    && m.children == left.children + [rightId] + right.children
    && m.tension == left.tension && m.atypicalCount == left.atypicalCount
    && |m.centroid| == |m.sufficientSum|
  }

  lemma MergedCombines(num: Numerics, cfg: Config, left: MemoryNode, right: MemoryNode, rightId: NodeId,
                       similarity: real, count: real, kappa: real)
    requires num.Valid()
    ensures Combines(left, right, rightId, Merged(num, cfg, left, right, rightId, similarity,
              Plus(left.sufficientSum, right.sufficientSum), count, kappa))
  {
  }

  lemma CombinedIsOk(left: MemoryNode, right: MemoryNode, rightId: NodeId, m: MemoryNode, dimension: nat)
    requires NodeOk(left, dimension) && NodeOk(right, dimension) && Combines(left, right, rightId, m)
    ensures NodeOk(m, dimension)
    ensures ToSet(m.eventIds) == ToSet(left.eventIds) + ToSet(right.eventIds)
  {
    AppendNewIsUnion(left.eventIds, right.eventIds);
  }
}
